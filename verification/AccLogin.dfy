/** The login protocol on one account's Redis hash: any number of account servers, each finalizing logins from
    a snapshot that may be stale, and logouts that may come late. */
module AccLogin {
  import opened Bytes

  /** The state fields of the account hash; a field never written reads as zero. */
  datatype Rec = Rec(seqNo: uint32, game: uint8, passwd: uint64)

  const NoRec := Rec(0, 0, 0)

  /** saveLoginLua. */
  function SaveLogin(r: Rec, expected: uint32, game: uint8, next: uint32, passwd: uint64): (Rec, bool) {
    if r.seqNo == expected then (Rec(next, game, passwd), true) else (r, false)
  }

  /** clearGameLua. */
  function ClearGame(r: Rec, expected: uint32): (Rec, bool) {
    if r.seqNo == expected then (r.(game := 0), true) else (r, false)
  }

  /** The first test of finalizeLoginSession lets the request through. */
  predicate TokenOk(passwd: uint64, reconnect: bool, token: uint64) {
    !(reconnect && passwd != 0 && token != passwd)
  }

  /** allocateGameServer: the last game server while it is up, else what discovery selects, if anything. */
  function Allocate(last: uint8, up: bool, selected: Option<uint8>): Option<uint8> {
    if last != 0 && up then Some(last) else selected
  }

  /** acc.Seq + 1 on uint32. */
  function Succ(seqNo: uint32): uint32 { (seqNo + 1) % 0x1_0000_0000 }

  // ---------- the runs ----------

  /** A login that was written: its number, its game server, the password, and the session that wrote it. */
  datatype Login = Login(seqNo: uint32, game: uint8, passwd: uint64, session: nat)

  /** Loaded: the snapshot is taken. Ready: about to run the script. Applied(n): the script wrote login n, and
      the reply is on its way. Granted(n): the client was let in. Failed: it was refused, for any reason. */
  datatype Stage = Loaded | Ready(game: uint8, passwd: uint64) | Applied(n: nat) | Granted(n: nat) | Failed

  datatype Session = Session(snap: Rec, reconnect: bool, token: uint64, stage: Stage)

  /** cleared: a clear carrying the current seq came after the current login. */
  datatype Sys = Sys(rec: Rec, sessions: seq<Session>, logins: seq<Login>, cleared: bool)

  datatype Action =
    | Load(reconnect: bool, token: uint64)
    | Check(i: nat, up: bool, selected: Option<uint8>, draw: uint64)
    | RunScript(i: nat)
    | Reply(i: nat, lost: bool)
    | Clear(seqNo: uint32)

  const Start := Sys(NoRec, [], [], false)

  predicate Enabled(s: Sys, a: Action) {
    match a
    case Load(_, _) => true
    case Check(i, _, _, draw) => i < |s.sessions| && s.sessions[i].stage.Loaded? && draw != 0
    case RunScript(i) => i < |s.sessions| && s.sessions[i].stage.Ready?
    case Reply(i, _) => i < |s.sessions| && s.sessions[i].stage.Applied?
    case Clear(_) => true
  }

  /** finalizeLoginSession up to the script. */
  function Checked(x: Session, up: bool, selected: Option<uint8>, draw: uint64): Stage {
    var game := Allocate(x.snap.game, up, selected);
    if !TokenOk(x.snap.passwd, x.reconnect, x.token) || game.None? then Failed
    else Ready(game.value, if x.snap.passwd == 0 then draw else x.snap.passwd)
  }

  function At(s: Sys, i: nat, stage: Stage): Sys
    requires i < |s.sessions|
  {
    s.(sessions := s.sessions[i := s.sessions[i].(stage := stage)])
  }

  function Scripted(s: Sys, i: nat): Sys
    requires i < |s.sessions| && s.sessions[i].stage.Ready?
  {
    var x := s.sessions[i];
    var next := Succ(x.snap.seqNo);
    var (rec, done) := SaveLogin(s.rec, x.snap.seqNo, x.stage.game, next, x.stage.passwd);
    if !done then At(s, i, Failed)
    else
      At(s, i, Applied(|s.logins|))
        .(rec := rec, logins := s.logins + [Login(next, x.stage.game, x.stage.passwd, i)], cleared := false)
  }

  function Do(s: Sys, a: Action): Sys
    requires Enabled(s, a)
  {
    match a
    case Load(reconnect, token) => s.(sessions := s.sessions + [Session(s.rec, reconnect, token, Loaded)])
    case Check(i, up, selected, draw) => At(s, i, Checked(s.sessions[i], up, selected, draw))
    case RunScript(i) => Scripted(s, i)
    case Reply(i, lost) => At(s, i, if lost then Failed else Granted(s.sessions[i].stage.n))
    case Clear(q) =>
      var (rec, done) := ClearGame(s.rec, q);
      s.(rec := rec, cleared := s.cleared || done)
  }

  // ---------- what every step keeps ----------

  /** What the hash says after the first n logins, the game server aside. */
  ghost predicate SeenAfter(logins: seq<Login>, r: Rec, n: nat) {
    n <= |logins| && r.seqNo == n && r.passwd == if n == 0 then 0 else logins[0].passwd
  }

  /** The logins so far are numbered from 1, and have one non-zero password. */
  ghost predicate LoginsOk(logins: seq<Login>) {
    forall n :: 0 <= n < |logins| ==>
      logins[n].seqNo == n + 1 && logins[n].passwd == logins[0].passwd && logins[n].passwd != 0
  }

  ghost predicate SessionOk(s: Sys, i: nat)
    requires i < |s.sessions|
  {
    var x := s.sessions[i];
    && SeenAfter(s.logins, x.snap, x.snap.seqNo)
    && (x.stage.Ready? || x.stage.Applied? || x.stage.Granted? ==> TokenOk(x.snap.passwd, x.reconnect, x.token))
    && (x.stage.Ready? ==> x.stage.passwd != 0 && (x.snap.passwd != 0 ==> x.stage.passwd == x.snap.passwd))
    && (x.stage.Applied? || x.stage.Granted? ==> x.stage.n == x.snap.seqNo < |s.logins| && s.logins[x.stage.n].session == i)
  }

  /** The game server is that of the login holding the current seq, or zero once that login was cleared. */
  ghost predicate GameOk(s: Sys) {
    s.rec.game == if s.logins == [] || s.cleared then 0 else s.logins[|s.logins| - 1].game
  }

  ghost predicate Inv(s: Sys) {
    && LoginsOk(s.logins) && SeenAfter(s.logins, s.rec, |s.logins|) && GameOk(s)
    && forall i :: 0 <= i < |s.sessions| ==> SessionOk(s, i)
  }

  /** A script that finds the seq of its snapshot also finds the password of its snapshot. */
  lemma SameSeqSamePasswd(s: Sys, i: nat)
    requires Inv(s) && i < |s.sessions| && s.sessions[i].snap.seqNo == s.rec.seqNo
    ensures s.sessions[i].snap.passwd == s.rec.passwd
  {
    assert SessionOk(s, i);
  }

  lemma ScriptKeeps(s: Sys, i: nat)
    requires Inv(s) && Enabled(s, RunScript(i)) && |s.logins| + 1 < 0x1_0000_0000
    ensures Inv(Scripted(s, i))
  {
    var t, x := Scripted(s, i), s.sessions[i];
    assert SessionOk(s, i);
    forall j | 0 <= j < |t.sessions| ensures SessionOk(t, j) { assert SessionOk(s, j); }
  }

  lemma StepKeeps(s: Sys, a: Action)
    requires Inv(s) && Enabled(s, a) && |Do(s, a).logins| < 0x1_0000_0000
    ensures Inv(Do(s, a))
  {
    var t := Do(s, a);
    if a.RunScript? {
      if s.sessions[a.i].snap.seqNo == s.rec.seqNo {
        ScriptKeeps(s, a.i);
      } else {
        forall j | 0 <= j < |t.sessions| ensures SessionOk(t, j) { assert SessionOk(s, j); }
      }
    } else {
      forall j | 0 <= j < |t.sessions| ensures SessionOk(t, j) { assert j < |s.sessions| ==> SessionOk(s, j); }
    }
  }

  /** The state after acts, if each was possible in its turn. */
  ghost function Run(acts: seq<Action>): (r: Option<Sys>)
    ensures r.Some? && |r.value.logins| < 0x1_0000_0000 ==> Inv(r.value)
  {
    if acts == [] then Some(Start)
    else
      var before := Run(acts[..|acts| - 1]);
      var a := acts[|acts| - 1];
      if before.None? || !Enabled(before.value, a) then None
      else
        var t := Do(before.value, a);
        assert |before.value.logins| <= |t.logins|;
        if |t.logins| < 0x1_0000_0000 then StepKeeps(before.value, a); Some(t) else Some(t)
  }

  /** acts were possible, and the uint32 seq has not wrapped. */
  ghost predicate Reached(acts: seq<Action>, s: Sys) { Run(acts) == Some(s) && |s.logins| < 0x1_0000_0000 }

  // ---------- what that means for every run ----------

  /** The logins written are numbered 1, 2, 3 and so on, and the hash holds the last number. */
  lemma ConsecutiveSeq(acts: seq<Action>, s: Sys)
    requires Reached(acts, s)
    ensures s.rec.seqNo == |s.logins| && forall n :: 0 <= n < |s.logins| ==> s.logins[n].seqNo == n + 1
  {
    assert Inv(s);
  }

  /** Of the sessions with one snapshot seq at most one is written, and no two sessions have one number. */
  lemma OneWinner(acts: seq<Action>, s: Sys, i: nat, j: nat)
    requires Reached(acts, s) && i < j < |s.sessions|
    requires s.sessions[i].stage.Applied? || s.sessions[i].stage.Granted?
    requires s.sessions[j].stage.Applied? || s.sessions[j].stage.Granted?
    ensures s.sessions[i].snap.seqNo != s.sessions[j].snap.seqNo
    ensures s.sessions[i].stage.n < |s.logins| && s.sessions[j].stage.n < |s.logins|
    ensures s.logins[s.sessions[i].stage.n].seqNo != s.logins[s.sessions[j].stage.n].seqNo
  {
    assert SessionOk(s, i) && SessionOk(s, j);
  }

  /** A session whose snapshot is behind the hash changes nothing of the hash, and fails. */
  lemma StaleFails(acts: seq<Action>, s: Sys, i: nat)
    requires Reached(acts, s) && Enabled(s, RunScript(i)) && s.sessions[i].snap.seqNo < |s.logins|
    ensures var t := Do(s, RunScript(i)); t.rec == s.rec && t.logins == s.logins && t.sessions[i].stage == Failed
  {
    assert Inv(s);
  }

  /** A logout that carries the number of any login but the last leaves the hash as it was; that of the last
      login takes the game server away and nothing else. */
  lemma LateLogout(acts: seq<Action>, s: Sys, n: nat)
    requires Reached(acts, s) && n < |s.logins|
    ensures var t := Do(s, Clear(s.logins[n].seqNo));
            t.rec == if n + 1 < |s.logins| then s.rec else s.rec.(game := 0)
  {
    assert Inv(s) && s.logins[n].seqNo == n + 1;
  }

  /** game_id belongs to the login holding the current seq, or is zero, and then only before the first login,
      after a clear with that seq, or because that login chose server zero. */
  lemma GameHeld(acts: seq<Action>, s: Sys)
    requires Reached(acts, s)
    ensures s.logins != [] ==> s.logins[|s.logins| - 1].seqNo == s.rec.seqNo
    ensures s.rec.game == if s.logins == [] || s.cleared then 0 else s.logins[|s.logins| - 1].game
  {
    assert Inv(s);
  }

  /** Whatever follows, a password once set stays. */
  lemma {:induction false} PasswdFixed(acts: seq<Action>, more: seq<Action>, s: Sys, t: Sys)
    requires Reached(acts, s) && Reached(acts + more, t) && s.rec.passwd != 0
    ensures t.rec.passwd == s.rec.passwd && s.logins <= t.logins
  {
    if more == [] {
      assert acts + more == acts;
    } else {
      var n := |more| - 1;
      assert (acts + more)[..|acts + more| - 1] == acts + more[..n];
      var u := Run(acts + more[..n]).value;
      assert t == Do(u, more[n]);
      PasswdFixed(acts, more[..n], s, u);
    }
  }

  /** The token of a granted login passes the reconnect check of every session, however stale its snapshot. */
  lemma TokenPasses(acts: seq<Action>, s: Sys, i: nat, j: nat)
    requires Reached(acts, s) && i < |s.sessions| && j < |s.sessions| && s.sessions[i].stage.Granted?
    ensures s.sessions[i].stage.n < |s.logins|
    ensures TokenOk(s.sessions[j].snap.passwd, true, s.logins[s.sessions[i].stage.n].passwd)
  {
    assert SessionOk(s, i) && SessionOk(s, j);
  }

  /** A reconnect whose snapshot came after a login is let in only with the account's password. */
  lemma ReconnectNeedsToken(acts: seq<Action>, s: Sys, i: nat)
    requires Reached(acts, s) && i < |s.sessions| && s.sessions[i].stage.Granted?
    requires s.sessions[i].reconnect && s.sessions[i].snap.seqNo > 0
    ensures s.sessions[i].token == s.rec.passwd != 0
  {
    assert SessionOk(s, i);
  }
}
