/** The four protobuf messages modelled, as values. A nil sub-message is None. */
module PbMessages {
  import opened Bytes

  datatype ClientInfo = ClientInfo(
    devID: Str, advType: Str, phoneModel: Str, sysVersion: Str, machine: Str, ip: Str, unknown: seq<byte>)

  datatype C2SLogin = C2SLogin(
    sdkType: int32, account: Str, token: Str, channel: uint32, dev: Str, area: uint32, version: Str,
    reconnect: bool, cliInfo: Option<ClientInfo>, unknown: seq<byte>)

  datatype RoleData = RoleData(
    id: uint64, level: int32, exp: uint32, name: Str, country: uint32,
    offlineTime: int64, onlineTime: int64, createTime: int64,
    resetTime: int64, dayChange: int64, dataResetMonth: int64,
    items: map<Str, int64>, unknown: seq<byte>)

  datatype S2CLogin = S2CLogin(
    code: int32, gameID: uint32, openTime: int64, serverNowTime: int64, serverBeginTime: int64,
    dev: Str, retDesc: Str, token: uint32, cliVersion: Str,
    data: Option<C2SLogin>, player: Option<RoleData>, connectAcc: seq<Str>, unknown: seq<byte>)

  const NoClient := ClientInfo([], [], [], [], [], [], [])
  const NoLogin := C2SLogin(0, [], [], 0, [], 0, [], false, None, [])
  const NoRole := RoleData(0, 0, 0, [], 0, 0, 0, 0, 0, 0, 0, map[], [])
  const NoReply := S2CLogin(0, 0, 0, 0, 0, [], [], 0, [], None, None, [], [])

  /** Any of the messages; decoding one never changes which. */
  datatype Msg = OfClient(client: ClientInfo) | OfLogin(login: C2SLogin)
               | OfRole(role: RoleData) | OfReply(reply: S2CLogin)

  predicate SameKind(a: Msg, b: Msg) {
    a.OfClient? == b.OfClient? && a.OfLogin? == b.OfLogin? && a.OfRole? == b.OfRole?
  }

  // ---------- merging: what decoding b's bytes into a is meant to give ----------

  /** Section "Last One Wins": a later non-default scalar or string replaces the earlier one. */
  function Last<T(==)>(a: T, b: T, zero: T): T { if b == zero then a else b }

  function MergeClient(a: ClientInfo, b: ClientInfo): (c: ClientInfo) {
    ClientInfo(Last(a.devID, b.devID, []), Last(a.advType, b.advType, []), Last(a.phoneModel, b.phoneModel, []),
      Last(a.sysVersion, b.sysVersion, []), Last(a.machine, b.machine, []), Last(a.ip, b.ip, []),
      a.unknown + b.unknown)
  }

  function MergeLogin(a: C2SLogin, b: C2SLogin): (c: C2SLogin) {
    C2SLogin(Last(a.sdkType, b.sdkType, 0), Last(a.account, b.account, []), Last(a.token, b.token, []),
      Last(a.channel, b.channel, 0), Last(a.dev, b.dev, []), Last(a.area, b.area, 0),
      Last(a.version, b.version, []), a.reconnect || b.reconnect,
      if b.cliInfo.None? then a.cliInfo
      else Some(MergeClient(if a.cliInfo.None? then NoClient else a.cliInfo.value, b.cliInfo.value)),
      a.unknown + b.unknown)
  }

  /** Section "Maps": entries of b replace entries of a under the same key. */
  function MergeRole(a: RoleData, b: RoleData): (c: RoleData) {
    RoleData(Last(a.id, b.id, 0), Last(a.level, b.level, 0), Last(a.exp, b.exp, 0), Last(a.name, b.name, []),
      Last(a.country, b.country, 0), Last(a.offlineTime, b.offlineTime, 0), Last(a.onlineTime, b.onlineTime, 0),
      Last(a.createTime, b.createTime, 0), Last(a.resetTime, b.resetTime, 0), Last(a.dayChange, b.dayChange, 0),
      Last(a.dataResetMonth, b.dataResetMonth, 0), a.items + b.items, a.unknown + b.unknown)
  }

  function MergeReply(a: S2CLogin, b: S2CLogin): (c: S2CLogin) {
    S2CLogin(Last(a.code, b.code, 0), Last(a.gameID, b.gameID, 0), Last(a.openTime, b.openTime, 0),
      Last(a.serverNowTime, b.serverNowTime, 0), Last(a.serverBeginTime, b.serverBeginTime, 0),
      Last(a.dev, b.dev, []), Last(a.retDesc, b.retDesc, []), Last(a.token, b.token, 0),
      Last(a.cliVersion, b.cliVersion, []),
      if b.data.None? then a.data else Some(MergeLogin(if a.data.None? then NoLogin else a.data.value, b.data.value)),
      if b.player.None? then a.player else Some(MergeRole(if a.player.None? then NoRole else a.player.value, b.player.value)),
      a.connectAcc + b.connectAcc, a.unknown + b.unknown)
  }
}
