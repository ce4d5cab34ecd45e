/** The running bot: the Discord client object, which owns the persisted documents and the
    per-guild Rust+ connections, and a Rust+ connection ("session", `rustplus` in the code).
    Outbound effects (Discord messages, in-game messages, remote switch calls) are appended
    to the client's outbox in the order the code issues them. */
module Bot {
  import opened Common
  import opened Document

  /** The arguments a group-sync revert timer captured when it was scheduled. */
  datatype PendingRevert = PendingRevert(guildId: GuildId, serverId: ServerId, groupId: GroupId, switchId: SwitchId)

  /** A pending reconnect: `client.createRustplusInstance` bound to these arguments. */
  datatype ReconnectTimer = ReconnectTimer(
    guildId: GuildId, server: string, port: string, playerId: string, playerToken: string, delay: int)

  datatype Event =
    | TurnSmartSwitch(guildId: GuildId, switchId: SwitchId, value: bool)
    | SmartSwitchMessage(guildId: GuildId, serverId: ServerId, switchId: SwitchId)
    | SmartSwitchGroupMessage(guildId: GuildId, serverId: ServerId, groupId: GroupId)
    | SmartSwitchNotFoundMessage(guildId: GuildId, serverId: ServerId, switchId: SwitchId)
    | InGameMessage(guildId: GuildId, text: string)
    | GroupToggleAnnounced(guildId: GuildId, groupName: string, active: bool, revertAfterSeconds: Option<int>)
    | GroupRevertAnnounced(guildId: GuildId, groupName: string, active: bool)
    | ServerChangeStateMessage(guildId: GuildId, serverId: ServerId, state: int)
    | ServerMessage(guildId: GuildId, serverId: ServerId, state: int)
    | DeleteRustplusInstance(guildId: GuildId)
    | TeamsMessage(guildId: GuildId, serverId: ServerId)
    | MarketListingsMessage(guildId: GuildId, serverId: ServerId)

  class Session {
    const guildId: GuildId
    const serverId: ServerId
    const server: string
    const port: string
    const playerId: string
    const playerToken: string
    var isDeleted: bool
    var isOperational: bool
    /** `groupSyncTimeouts`: pending group-sync reverts by `groupId:switchId`. A missing
        table behaves as an empty one. */
    var groupSyncTimeouts: map<string, PendingRevert>
    /** `currentSwitchTimeouts`: deferred toggles by switch or group id, holding the value
        the deferred command will apply. */
    var currentSwitchTimeouts: map<string, bool>
    var interactionSwitches: seq<SwitchId>
    var firstPollItems: SubscriptionLists

    constructor (guildId: GuildId, serverId: ServerId, server: string, port: string,
                 playerId: string, playerToken: string)
      ensures this.guildId == guildId && this.serverId == serverId
      ensures this.server == server && this.port == port
      ensures this.playerId == playerId && this.playerToken == playerToken
      ensures !isDeleted && !isOperational
      ensures groupSyncTimeouts == map[] && currentSwitchTimeouts == map[]
      ensures interactionSwitches == [] && firstPollItems == SubscriptionLists([], [], [])
    {
      this.guildId, this.serverId := guildId, serverId;
      this.server, this.port := server, port;
      this.playerId, this.playerToken := playerId, playerToken;
      isDeleted, isOperational := false, false;
      groupSyncTimeouts, currentSwitchTimeouts := map[], map[];
      interactionSwitches := [];
      firstPollItems := SubscriptionLists([], [], []);
    }
  }

  class Client {
    /** The persisted documents: `getInstance` reads, `setInstance` writes. */
    var instances: map<GuildId, Instance>
    var rustplusInstances: map<GuildId, Session>
    var activeRustplusInstances: map<GuildId, bool>
    var rustplusReconnecting: map<GuildId, bool>
    var rustplusReconnectTimers: map<GuildId, Option<ReconnectTimer>>
    var outbox: seq<Event>

    constructor ()
      ensures instances == map[] && rustplusInstances == map[]
      ensures activeRustplusInstances == map[] && rustplusReconnecting == map[]
      ensures rustplusReconnectTimers == map[] && outbox == []
    {
      instances, rustplusInstances := map[], map[];
      activeRustplusInstances, rustplusReconnecting := map[], map[];
      rustplusReconnectTimers, outbox := map[], [];
    }
  }

  /** A possibly missing session as a set of objects, for frames. */
  function AsFrame(s: Session?): set<Session> {
    if s == null then {} else {s}
  }

  /** `client.rustplusInstances[guildId]`, `null` when there is none. */
  function CurrentSession(client: Client, guildId: GuildId): Session?
    reads client
  {
    if guildId in client.rustplusInstances then client.rustplusInstances[guildId] else null
  }

  /** The guild's current session, as a frame. */
  function SessionFrame(client: Client, guildId: GuildId): set<Session>
    reads client
  {
    if guildId in client.rustplusInstances then {client.rustplusInstances[guildId]} else {}
  }
}
