/** Bind keys, the Mongo accounts that hold them, and the Redis cache of who holds which: any number of account
    servers resolving keys, registering accounts and binding keys, with every store call able to fail. */
module BindRuns {
  import opened Bytes

  type Key = Str
  type AccId = nat

  /** pb.ActorID_IDAccBegin: where account ids start when there is no account. */
  const ID_ACC_BEGIN: AccId := 100000

  /** Accounts by id with their binds. Both fields carry a unique index. */
  type Accounts = map<AccId, set<Key>>

  /** Where the resolution of one bind key has got. */
  datatype Stage =
    | AskCache                       // GET of the bind key
    | AskHash(acc: AccId)            // HMGET of the account the cache named
    | AskMongo                       // Find
    | Sync(acc: AccId)               // syncAccountsToCache, or the pipeline of registerNewAccounts
    | Generate                       // INCR
    | Insert(acc: AccId)             // InsertOne
    | Resolved(acc: AccId)           // OpAfterSDKCheck is dispatched with this account
    | Failed
    | BindUpdate(acc: AccId)         // BindNewSDK: UpdateOne
    | BindSet(acc: AccId)            // BindNewSDK: SET
    | InitMax                        // InitDistributedAccID: the largest id in Mongo
    | InitScript(max: AccId)         // InitDistributedAccID: the script
    | Ended

  datatype Session = Session(key: Key, stage: Stage)

  /** hashes: accounts whose Redis hash has its acc_id field. ready: some server has initialised the counter. */
  datatype Sys = Sys(mongo: Accounts, cache: map<Key, AccId>, hashes: set<AccId>, counter: nat, ready: bool,
                     sessions: seq<Session>)

  /** What a store call came to: done with its answer received, done with the answer lost, or not done. */
  datatype Fate = Done | Lost | NotDone

  datatype Action =
    | Begin(key: Key)
    | BeginBind(key: Key, acc: AccId)
    | BeginInit
    | Proceed(i: nat, fate: Fate, hash: bool)

  ghost predicate Unique(m: Accounts) {
    forall a, b, k :: a in m && b in m && k in m[a] && k in m[b] ==> a == b
  }

  ghost predicate Holds(m: Accounts, k: Key, a: AccId) { a in m && k in m[a] }

  ghost predicate Taken(m: Accounts, k: Key) { exists a :: Holds(m, k, a) }

  /** The account holding k. */
  ghost function Holder(m: Accounts, k: Key): AccId
    requires Taken(m, k)
    ensures Holds(m, k, Holder(m, k))
  {
    var a :| Holds(m, k, a); a
  }

  /** BindNewSDK is called for existing accounts only. */
  ghost predicate Enabled(s: Sys, a: Action) {
    match a
    case Begin(_) => s.ready
    case BeginBind(_, acc) => acc in s.mongo
    case BeginInit => true
    case Proceed(i, _, _) =>
      i < |s.sessions| && !s.sessions[i].stage.Resolved? && !s.sessions[i].stage.Failed? && !s.sessions[i].stage.Ended?
  }

  function At(s: Sys, i: nat, stage: Stage): Sys
    requires i < |s.sessions|
  {
    s.(sessions := s.sessions[i := s.sessions[i].(stage := stage)])
  }

  /** InsertOne of a new account: refused if its id or its key is taken. */
  ghost function Inserted(m: Accounts, k: Key, a: AccId): Accounts {
    if a in m || Taken(m, k) then m else m[a := {k}]
  }

  /** UpdateOne with $addToSet: refused if another account holds k; without a match it does nothing. */
  ghost function Updated(m: Accounts, k: Key, a: AccId): Accounts {
    if a !in m || (Taken(m, k) && Holder(m, k) != a) then m else m[a := m[a] + {k}]
  }

  ghost function MaxId(m: Accounts): AccId
    ensures forall a :: a in m ==> a <= MaxId(m)
    decreases |m|
  {
    if m == map[] then 0
    else
      var a :| a in m;
      var rest := m - {a};
      assert forall b :: b in m ==> b == a || b in rest;
      if a > MaxId(rest) then a else MaxId(rest)
  }

  /** One store call of session i. hash: whether a pipeline wrote the account hash as well. */
  ghost function Proceeded(s: Sys, i: nat, fate: Fate, hash: bool): Sys
    requires i < |s.sessions|
  {
    var k, stage := s.sessions[i].key, s.sessions[i].stage;
    match stage
    case AskCache => At(s, i, if fate.Done? && k in s.cache then AskHash(s.cache[k]) else AskMongo)
    case AskHash(a) => At(s, i, if fate.Done? && a in s.hashes && a > 0 then Resolved(a) else AskMongo)
    case AskMongo =>
      At(s, i, if !fate.Done? then Failed else if Taken(s.mongo, k) then Sync(Holder(s.mongo, k)) else Generate)
    case Sync(a) =>
      var t := At(s, i, Resolved(a));
      t.(cache := if fate.NotDone? then s.cache else s.cache[k := a],
         hashes := if hash then s.hashes + {a} else s.hashes)
    case Generate =>
      if fate.NotDone? then At(s, i, Failed)
      else At(s, i, if fate.Done? then Insert(s.counter + 1) else Failed).(counter := s.counter + 1)
    case Insert(a) =>
      var taken := a in s.mongo || Taken(s.mongo, k);
      var t := At(s, i, if fate.Done? && !taken then Sync(a) else Failed);
      if fate.NotDone? then t else t.(mongo := Inserted(s.mongo, k, a))
    case BindUpdate(a) =>
      var refused := Taken(s.mongo, k) && Holder(s.mongo, k) != a && a in s.mongo;
      var t := At(s, i, if fate.Done? && !refused then BindSet(a) else Ended);
      if fate.NotDone? then t else t.(mongo := Updated(s.mongo, k, a))
    case BindSet(a) => At(s, i, Ended).(cache := if fate.NotDone? then s.cache else s.cache[k := a])
    case InitMax => At(s, i, if fate.Done? then InitScript(if s.mongo == map[] then ID_ACC_BEGIN else MaxId(s.mongo)) else Ended)
    case InitScript(max) =>
      if fate.NotDone? then At(s, i, Ended)
      else At(s, i, Ended).(counter := if max > s.counter then max else s.counter, ready := s.ready || fate.Done?)
    case _ => s
  }

  ghost function Do(s: Sys, a: Action): Sys
    requires Enabled(s, a)
  {
    match a
    case Begin(k) => s.(sessions := s.sessions + [Session(k, AskCache)])
    case BeginBind(k, acc) => s.(sessions := s.sessions + [Session(k, BindUpdate(acc))])
    case BeginInit => s.(sessions := s.sessions + [Session([], InitMax)])
    case Proceed(i, fate, hash) => Proceeded(s, i, fate, hash)
  }

  // ---------- what every step keeps ----------

  /** Every cached bind agrees with Mongo. */
  ghost predicate CacheOk(s: Sys) { forall k :: k in s.cache ==> Holds(s.mongo, k, s.cache[k]) }

  /** What a session knows of its key is true of Mongo. */
  ghost predicate KnowsOk(m: Accounts, x: Session) {
    match x.stage
    case AskHash(a) => Holds(m, x.key, a)
    case Sync(a) => Holds(m, x.key, a)
    case Resolved(a) => Holds(m, x.key, a)
    case BindUpdate(a) => a in m
    case BindSet(a) => Holds(m, x.key, a)
    case _ => true
  }

  ghost predicate BindInv(s: Sys) {
    Unique(s.mongo) && CacheOk(s) && forall i :: 0 <= i < |s.sessions| ==> KnowsOk(s.mongo, s.sessions[i])
  }

  /** Accounts are never removed and never lose a key. */
  ghost predicate Grows(m: Accounts, m': Accounts) { forall a :: a in m ==> a in m' && m[a] <= m'[a] }

  lemma HolderOnly(m: Accounts, k: Key, a: AccId)
    requires Unique(m) && Holds(m, k, a)
    ensures Taken(m, k) && Holder(m, k) == a
  {
    var h := Holder(m, k);
    assert h in m && k in m[h];
  }

  lemma InsertedOk(m: Accounts, k: Key, a: AccId)
    requires Unique(m)
    ensures Unique(Inserted(m, k, a)) && Grows(m, Inserted(m, k, a))
    ensures a !in m && !Taken(m, k) ==> Holds(Inserted(m, k, a), k, a)
  {
    if a !in m && !Taken(m, k) { assert forall b :: b in m ==> !Holds(m, k, b); }
  }

  lemma UpdatedOk(m: Accounts, k: Key, a: AccId)
    requires Unique(m)
    ensures Unique(Updated(m, k, a)) && Grows(m, Updated(m, k, a))
    ensures a in m && (!Taken(m, k) || Holder(m, k) == a) ==> Holds(Updated(m, k, a), k, a)
  {
    if a in m && (!Taken(m, k) || Holder(m, k) == a) {
      forall b | b in m && k in m[b] ensures b == a {
        HolderOnly(m, k, b);
      }
    }
  }

  /** What was known stays true, and a new stage of session i that is true of the new accounts is fine. */
  lemma AtOk(s: Sys, t: Sys, i: nat)
    requires BindInv(s) && Grows(s.mongo, t.mongo) && Unique(t.mongo) && i < |s.sessions| && |t.sessions| == |s.sessions|
    requires forall j :: 0 <= j < |s.sessions| && j != i ==> t.sessions[j] == s.sessions[j]
    requires KnowsOk(t.mongo, t.sessions[i])
    requires forall k :: k in t.cache ==> (k in s.cache && t.cache[k] == s.cache[k]) || Holds(t.mongo, k, t.cache[k])
    ensures BindInv(t)
  {
    forall j | 0 <= j < |t.sessions| ensures KnowsOk(t.mongo, t.sessions[j]) {
      if j != i { assert KnowsOk(s.mongo, s.sessions[j]); }
    }
  }

  /** The stages that change the accounts. */
  lemma WriteKeeps(s: Sys, i: nat, fate: Fate, hash: bool)
    requires BindInv(s) && i < |s.sessions| && (s.sessions[i].stage.Insert? || s.sessions[i].stage.BindUpdate?)
    ensures BindInv(Proceeded(s, i, fate, hash)) && Grows(s.mongo, Proceeded(s, i, fate, hash).mongo)
  {
    var x := s.sessions[i];
    assert KnowsOk(s.mongo, x);
    if x.stage.Insert? {
      InsertedOk(s.mongo, x.key, x.stage.acc);
    } else {
      UpdatedOk(s.mongo, x.key, x.stage.acc);
    }
    AtOk(s, Proceeded(s, i, fate, hash), i);
  }

  /** The stages that change the cache. */
  lemma SetKeeps(s: Sys, i: nat, fate: Fate, hash: bool)
    requires BindInv(s) && i < |s.sessions| && (s.sessions[i].stage.Sync? || s.sessions[i].stage.BindSet?)
    ensures BindInv(Proceeded(s, i, fate, hash)) && Grows(s.mongo, Proceeded(s, i, fate, hash).mongo)
  {
    assert KnowsOk(s.mongo, s.sessions[i]);
    AtOk(s, Proceeded(s, i, fate, hash), i);
  }

  /** The stages that only read, or touch the counter. */
  lemma ReadKeeps(s: Sys, i: nat, fate: Fate, hash: bool)
    requires BindInv(s) && i < |s.sessions| && !s.sessions[i].stage.Insert? && !s.sessions[i].stage.BindUpdate?
    requires !s.sessions[i].stage.Sync? && !s.sessions[i].stage.BindSet?
    ensures BindInv(Proceeded(s, i, fate, hash)) && Grows(s.mongo, Proceeded(s, i, fate, hash).mongo)
  {
    var t, x := Proceeded(s, i, fate, hash), s.sessions[i];
    ReadOnly(s, i, fate, hash);
    assert KnowsOk(s.mongo, x);
    assert KnowsOk(t.mongo, t.sessions[i]);
    AtOk(s, t, i);
  }

  lemma ReadOnly(s: Sys, i: nat, fate: Fate, hash: bool)
    requires i < |s.sessions| && !s.sessions[i].stage.Insert? && !s.sessions[i].stage.BindUpdate?
    requires !s.sessions[i].stage.Sync? && !s.sessions[i].stage.BindSet?
    ensures Proceeded(s, i, fate, hash).mongo == s.mongo && Proceeded(s, i, fate, hash).cache == s.cache
  {
  }

  lemma ProceedKeeps(s: Sys, i: nat, fate: Fate, hash: bool)
    requires BindInv(s) && i < |s.sessions|
    ensures BindInv(Proceeded(s, i, fate, hash)) && Grows(s.mongo, Proceeded(s, i, fate, hash).mongo)
  {
    if s.sessions[i].stage.Insert? || s.sessions[i].stage.BindUpdate? {
      WriteKeeps(s, i, fate, hash);
    } else if s.sessions[i].stage.Sync? || s.sessions[i].stage.BindSet? {
      SetKeeps(s, i, fate, hash);
    } else {
      ReadKeeps(s, i, fate, hash);
    }
  }

  lemma StepKeeps(s: Sys, a: Action)
    requires BindInv(s) && Enabled(s, a)
    ensures BindInv(Do(s, a)) && Grows(s.mongo, Do(s, a).mongo)
  {
    if a.Proceed? { ProceedKeeps(s, a.i, a.fate, a.hash); }
  }

  // ---------- the ids ----------

  /** Sessions begun by a server that has initialised the counter. */
  predicate Serving(stage: Stage) {
    stage.AskCache? || stage.AskHash? || stage.AskMongo? || stage.Generate? || stage.Insert?
  }

  ghost predicate IdOk(s: Sys, x: Session) {
    && (Serving(x.stage) ==> s.ready)
    && (x.stage.Insert? ==> x.stage.acc <= s.counter && x.stage.acc !in s.mongo)
    && (x.stage.InitScript? ==> forall a :: a in s.mongo ==> a <= x.stage.max || (s.ready && a <= s.counter))
  }

  ghost predicate Apart(xs: seq<Session>) {
    forall i, j :: 0 <= i < j < |xs| && xs[i].stage.Insert? && xs[j].stage.Insert? ==> xs[i].stage.acc != xs[j].stage.acc
  }

  /** Once some server has initialised the counter it is past every account, and an id drawn is nobody else's. */
  ghost predicate IdInv(s: Sys) {
    && (s.ready ==> forall a :: a in s.mongo ==> a <= s.counter)
    && Apart(s.sessions)
    && forall i :: 0 <= i < |s.sessions| ==> IdOk(s, s.sessions[i])
  }

  lemma GenerateIds(s: Sys, i: nat, fate: Fate, hash: bool)
    requires IdInv(s) && i < |s.sessions| && s.sessions[i].stage.Generate?
    ensures IdInv(Proceeded(s, i, fate, hash))
  {
    var t := Proceeded(s, i, fate, hash);
    assert IdOk(s, s.sessions[i]);
    forall j | 0 <= j < |t.sessions| ensures IdOk(t, t.sessions[j]) { assert IdOk(s, s.sessions[j]); }
    assert forall j :: 0 <= j < |s.sessions| && s.sessions[j].stage.Insert? ==> IdOk(s, s.sessions[j]);
  }

  lemma InsertIds(s: Sys, i: nat, fate: Fate, hash: bool)
    requires IdInv(s) && i < |s.sessions| && s.sessions[i].stage.Insert?
    ensures IdInv(Proceeded(s, i, fate, hash))
  {
    var t := Proceeded(s, i, fate, hash);
    var a := s.sessions[i].stage.acc;
    assert IdOk(s, s.sessions[i]);
    assert forall b :: b in t.mongo ==> b in s.mongo || b == a;
    forall j | 0 <= j < |t.sessions| ensures IdOk(t, t.sessions[j]) { assert IdOk(s, s.sessions[j]); }
  }

  /** A step that adds no account and only moves the counter up. */
  lemma SteadyIds(s: Sys, t: Sys, i: nat)
    requires IdInv(s) && i < |s.sessions| && t.mongo.Keys == s.mongo.Keys
    requires t.counter >= s.counter && (s.ready ==> t.ready) && (t.ready ==> forall a :: a in s.mongo ==> a <= t.counter)
    requires |t.sessions| == |s.sessions| && forall j :: 0 <= j < |s.sessions| && j != i ==> t.sessions[j] == s.sessions[j]
    requires !t.sessions[i].stage.Insert? && IdOk(t, t.sessions[i])
    ensures IdInv(t)
  {
    forall j | 0 <= j < |t.sessions| ensures IdOk(t, t.sessions[j]) {
      if j != i { assert IdOk(s, s.sessions[j]); }
    }
  }

  lemma InitIds(s: Sys, i: nat, fate: Fate, hash: bool)
    requires IdInv(s) && i < |s.sessions| && (s.sessions[i].stage.InitMax? || s.sessions[i].stage.InitScript?)
    ensures IdInv(Proceeded(s, i, fate, hash))
  {
    assert IdOk(s, s.sessions[i]);
    SteadyIds(s, Proceeded(s, i, fate, hash), i);
  }

  lemma OtherIds(s: Sys, i: nat, fate: Fate, hash: bool)
    requires IdInv(s) && i < |s.sessions| && !s.sessions[i].stage.Insert? && !s.sessions[i].stage.Generate?
    requires !s.sessions[i].stage.InitMax? && !s.sessions[i].stage.InitScript?
    ensures IdInv(Proceeded(s, i, fate, hash))
  {
    var t := Proceeded(s, i, fate, hash);
    SameCounter(s, i, fate, hash);
    assert IdOk(s, s.sessions[i]);
    SteadyIds(s, t, i);
  }

  lemma SameCounter(s: Sys, i: nat, fate: Fate, hash: bool)
    requires i < |s.sessions| && !s.sessions[i].stage.Insert? && !s.sessions[i].stage.Generate?
    requires !s.sessions[i].stage.InitMax? && !s.sessions[i].stage.InitScript?
    ensures var t := Proceeded(s, i, fate, hash);
            t.counter == s.counter && t.ready == s.ready && t.mongo.Keys == s.mongo.Keys
  {
  }

  lemma StepIds(s: Sys, a: Action)
    requires IdInv(s) && Enabled(s, a)
    ensures IdInv(Do(s, a))
  {
    if a.Proceed? {
      if s.sessions[a.i].stage.Generate? {
        GenerateIds(s, a.i, a.fate, a.hash);
      } else if s.sessions[a.i].stage.Insert? {
        InsertIds(s, a.i, a.fate, a.hash);
      } else if s.sessions[a.i].stage.InitMax? || s.sessions[a.i].stage.InitScript? {
        InitIds(s, a.i, a.fate, a.hash);
      } else {
        OtherIds(s, a.i, a.fate, a.hash);
      }
    } else {
      var t := Do(s, a);
      forall j | 0 <= j < |t.sessions| ensures IdOk(t, t.sessions[j]) { assert j < |s.sessions| ==> IdOk(s, s.sessions[j]); }
    }
  }

  // ---------- every run ----------

  /** Any accounts that respect the unique index, any counter, an empty cache. */
  function Init(mongo: Accounts, counter: nat): Sys { Sys(mongo, map[], {}, counter, false, []) }

  /** The state after acts, if each was possible in its turn. */
  ghost function Run(mongo: Accounts, counter: nat, acts: seq<Action>): (r: Option<Sys>)
    requires Unique(mongo)
    ensures r.Some? ==> BindInv(r.value) && IdInv(r.value)
  {
    if acts == [] then Some(Init(mongo, counter))
    else
      var before := Run(mongo, counter, acts[..|acts| - 1]);
      var a := acts[|acts| - 1];
      if before.None? || !Enabled(before.value, a) then None
      else
        StepKeeps(before.value, a);
        StepIds(before.value, a);
        Some(Do(before.value, a))
  }

  /** In every reachable state a cached bind names the account that holds the key in Mongo. */
  lemma CacheAgrees(mongo: Accounts, counter: nat, acts: seq<Action>, k: Key)
    requires Unique(mongo) && Run(mongo, counter, acts).Some? && k in Run(mongo, counter, acts).value.cache
    ensures var s := Run(mongo, counter, acts).value; Taken(s.mongo, k) && s.cache[k] == Holder(s.mongo, k)
  {
    var s := Run(mongo, counter, acts).value;
    HolderOnly(s.mongo, k, s.cache[k]);
  }

  /** Any two resolutions of one key, on any servers, by cache, database or registration, at any two times,
      come to the same account. */
  lemma OneAccount(mongo: Accounts, counter: nat, acts: seq<Action>, i: nat, j: nat)
    requires Unique(mongo) && Run(mongo, counter, acts).Some?
    requires var s := Run(mongo, counter, acts).value;
             && i < |s.sessions| && j < |s.sessions| && s.sessions[i].key == s.sessions[j].key
             && s.sessions[i].stage.Resolved? && s.sessions[j].stage.Resolved?
    ensures var s := Run(mongo, counter, acts).value; s.sessions[i].stage.acc == s.sessions[j].stage.acc
  {
    var s := Run(mongo, counter, acts).value;
    assert KnowsOk(s.mongo, s.sessions[i]) && KnowsOk(s.mongo, s.sessions[j]);
  }

  /** An id drawn for a new account is never one an account already has. */
  lemma FreshId(mongo: Accounts, counter: nat, acts: seq<Action>, i: nat)
    requires Unique(mongo) && Run(mongo, counter, acts).Some?
    requires var s := Run(mongo, counter, acts).value; i < |s.sessions| && s.sessions[i].stage.Insert?
    ensures var s := Run(mongo, counter, acts).value; s.sessions[i].stage.acc !in s.mongo
  {
    var s := Run(mongo, counter, acts).value;
    assert IdOk(s, s.sessions[i]);
  }

  // ---------- binding a key to an account that does not exist ----------

  /** BindNewSDK run on its own, both its calls done, without the demand that the account exists. */
  ghost function Bound(s: Sys, k: Key, a: AccId): Sys {
    var i := |s.sessions|;
    var t := s.(sessions := s.sessions + [Session(k, BindUpdate(a))]);
    var u := Proceeded(t, i, Done, false);
    if u.sessions[i].stage.BindSet? then Proceeded(u, i, Done, false) else u
  }

  /** Refused by Mongo or not, the cache still agrees with Mongo after BindNewSDK if and only if the account exists. */
  lemma BindNeedsAccount(s: Sys, k: Key, a: AccId)
    requires BindInv(s)
    ensures CacheOk(Bound(s, k, a)) <==> a in s.mongo
  {
    UpdatedOk(s.mongo, k, a);
    var t := Bound(s, k, a);
    if a in s.mongo {
      forall x | x in t.cache ensures Holds(t.mongo, x, t.cache[x]) {
        if x in s.cache { assert Holds(s.mongo, x, s.cache[x]); }
      }
    } else {
      assert k in t.cache && t.cache[k] == a && !Holds(t.mongo, k, a);
    }
  }

  /** With no account at all, one BindNewSDK leaves a cached bind that Mongo knows nothing of. */
  lemma BindWithoutAccount(k: Key)
    ensures var t := Bound(Init(map[], 0), k, 1); k in t.cache && t.cache[k] !in t.mongo
  {
    assert !Taken(map[], k) by { assert forall a :: !Holds(map[], k, a); }
  }
}
