/** finalizeLoginSession and the two scripts as they run: the snapshot and the request are changed in place. */
module AccSession {
  import opened Bytes
  import opened AccLogin

  datatype LoginCode = Success | CanNotReConn | NoGame | ServerErr | ServerBusy

  /** The loaded account, of which only the state fields matter here. */
  class Account {
    var gameID: uint8
    var seqNo: uint32
    var passwd: uint64

    constructor (r: Rec)
      ensures Snapshot() == r
    {
      gameID, seqNo, passwd := r.game, r.seqNo, r.passwd;
    }

    ghost function Snapshot(): Rec
      reads this
    {
      Rec(seqNo, gameID, passwd)
    }
  }

  class Request {
    const reconnect: bool
    var reConnToken: uint64
    var seqNo: uint32
  }

  class AccountHash {
    var rec: Rec

    method SaveLoginData(expected: uint32, game: uint8, next: uint32, passwd: uint64) returns (ok: bool)
      modifies this
      ensures (rec, ok) == SaveLogin(old(rec), expected, game, next, passwd)
    {
      ok := rec.seqNo == expected;
      if ok { rec := rec.(game := game, seqNo := next, passwd := passwd); }
    }

    /** HandleRoleLogout: another login's game server is never cleared. */
    method ClearGameID(expected: uint32) returns (ok: bool)
      modifies this
      ensures (rec, ok) == ClearGame(old(rec), expected)
    {
      ok := rec.seqNo == expected;
      if ok { rec := rec.(game := 0); }
    }
  }

  /** generatePasswd: the first random word that is not zero. */
  method GeneratePasswd(draws: seq<seq<byte>>) returns (pwd: uint64, n: nat)
    requires forall k :: 0 <= k < |draws| ==> |draws[k]| == 8
    requires exists k :: 0 <= k < |draws| && FromLittleEndian(draws[k]) != 0
    ensures pwd != 0 && n < |draws| && pwd == FromLittleEndian(draws[n])
    ensures forall k :: 0 <= k < n ==> FromLittleEndian(draws[k]) == 0
  {
    Pow256Values();
    n := 0;
    FromLittleEndianBound(draws[0]);
    pwd := FromLittleEndian(draws[0]);
    while pwd == 0
      invariant n < |draws| && pwd == FromLittleEndian(draws[n])
      invariant forall k :: 0 <= k < n ==> FromLittleEndian(draws[k]) == 0
      decreases |draws| - n
    {
      n := n + 1;
      FromLittleEndianBound(draws[n]);
      pwd := FromLittleEndian(draws[n]);
    }
  }

  /** allocateGameServer with selectGameServer. */
  method AllocateGameServer(lastGameID: uint8, up: bool, selected: Option<uint8>) returns (game: Option<uint8>)
    ensures game == Allocate(lastGameID, up, selected)
  {
    if lastGameID != 0 {
      if up { return Some(lastGameID); }
    }
    if selected.None? { return None; }
    return Some(selected.value);
  }

  /** up and selected are what discovery answers; lost: the script ran, its reply did not arrive. */
  method FinalizeLoginSession(acc: Account, req: Request, hash: AccountHash, up: bool, selected: Option<uint8>,
                              draws: seq<seq<byte>>, lost: bool)
    returns (code: LoginCode, ghost draw: uint64)
    requires forall k :: 0 <= k < |draws| ==> |draws[k]| == 8
    requires exists k :: 0 <= k < |draws| && FromLittleEndian(draws[k]) != 0
    modifies acc, req, hash
    ensures draw != 0
    ensures var stage := Checked(Session(old(acc.Snapshot()), req.reconnect, old(req.reConnToken), Loaded), up, selected, draw);
      if stage.Failed? then
        && hash.rec == old(hash.rec) && acc.Snapshot() == old(acc.Snapshot())
        && code == if TokenOk(old(acc.passwd), req.reconnect, old(req.reConnToken)) then NoGame else CanNotReConn
      else
        && acc.Snapshot() == Rec(Succ(old(acc.seqNo)), stage.game, stage.passwd)
        && hash.rec == SaveLogin(old(hash.rec), old(acc.seqNo), stage.game, acc.seqNo, stage.passwd).0
        && code == if lost then ServerErr else if old(hash.rec.seqNo) == old(acc.seqNo) then Success else ServerBusy
    ensures code == Success ==> hash.rec == acc.Snapshot() && req.seqNo == hash.rec.seqNo && req.reConnToken == hash.rec.passwd
    ensures code != Success ==> req.reConnToken == old(req.reConnToken) && req.seqNo == old(req.seqNo)
  {
    draw := 1;
    if req.reconnect && acc.passwd != 0 && req.reConnToken != acc.passwd {
      return CanNotReConn, draw;
    }
    var game := AllocateGameServer(acc.gameID, up, selected);
    if game.None? { return NoGame, draw; }
    if acc.passwd == 0 {
      var pwd, _ := GeneratePasswd(draws);
      acc.passwd := pwd;
      draw := pwd;
    }
    var oldSeq := acc.seqNo;
    acc.seqNo := Succ(oldSeq);
    acc.gameID := game.value;
    var ok := hash.SaveLoginData(oldSeq, acc.gameID, acc.seqNo, acc.passwd);
    if lost { return ServerErr, draw; }
    if !ok { return ServerBusy, draw; }
    req.reConnToken := acc.passwd;
    req.seqNo := acc.seqNo;
    code := Success;
  }
}
