/** Reconnect scheduling for a dropped Rust+ connection: at most one pending reconnect per
    guild, and "disconnected" notices only on the first drop of a run of failures. */
module Reconnect {
  import opened Common
  import opened Document
  import opened Bot

  const DefaultReconnectIntervalMs: int := 15000

  /** `getReconnectDelay()`: the configured interval when it is a finite number that is not
      negative, and the default otherwise. `configured` is `Number(reconnectIntervalMs)`. */
  function GetReconnectDelay(configured: Number): (r: int)
    ensures r >= 0
    ensures configured.Finite? && configured.value >= 0 ==> r == configured.value
    ensures !(configured.Finite? && configured.value >= 0) ==> r == DefaultReconnectIntervalMs
  {
    if configured.Finite? && configured.value >= 0 then configured.value else DefaultReconnectIntervalMs
  }

  /** A JavaScript truthiness test of `m[k]` for a table of flags. */
  predicate Flag(m: map<GuildId, bool>, k: GuildId) {
    k in m && m[k]
  }

  /** The parts of the client that scheduling a reconnect touches. */
  datatype ReconnectState = ReconnectState(
    outbox: seq<Event>,
    reconnecting: map<GuildId, bool>,
    sessions: map<GuildId, Session>,
    timers: map<GuildId, Option<ReconnectTimer>>)

  function ReconnectStateOf(client: Client): ReconnectState
    reads client
  {
    ReconnectState(client.outbox, client.rustplusReconnecting, client.rustplusInstances,
                   client.rustplusReconnectTimers)
  }

  /** Whether `scheduleRustplusReconnect` goes ahead: a live session for an active guild. */
  predicate ShouldSchedule(rustplus: Session?, active: map<GuildId, bool>)
    reads rustplus
  {
    rustplus != null && !rustplus.isDeleted && Flag(active, rustplus.guildId)
  }

  /** The timer that re-creates `rustplus`'s connection after `delay` milliseconds. */
  function TimerFor(rustplus: Session, delay: int): ReconnectTimer {
    ReconnectTimer(rustplus.guildId, rustplus.server, rustplus.port, rustplus.playerId, rustplus.playerToken, delay)
  }

  /** The state after a reconnect of `rustplus` is scheduled from `st`. */
  function Rescheduled(st: ReconnectState, rustplus: Session, delay: int): (r: ReconnectState)
    ensures Flag(r.reconnecting, rustplus.guildId)
    ensures rustplus.guildId !in r.sessions
    ensures rustplus.guildId in r.timers && r.timers[rustplus.guildId] == Some(TimerFor(rustplus, delay))
    ensures Flag(st.reconnecting, rustplus.guildId) ==> r.outbox == st.outbox
    ensures !Flag(st.reconnecting, rustplus.guildId) ==>
              r.outbox == st.outbox + [ServerChangeStateMessage(rustplus.guildId, rustplus.serverId, 1),
                                       ServerMessage(rustplus.guildId, rustplus.serverId, 2)]
    ensures forall g :: g != rustplus.guildId ==>
      && (g in r.reconnecting <==> g in st.reconnecting) && (g in r.reconnecting ==> r.reconnecting[g] == st.reconnecting[g])
      && (g in r.sessions <==> g in st.sessions) && (g in r.sessions ==> r.sessions[g] == st.sessions[g])
      && (g in r.timers <==> g in st.timers) && (g in r.timers ==> r.timers[g] == st.timers[g])
  {
    var g := rustplus.guildId;
    var notices := if Flag(st.reconnecting, g) then []
                   else [ServerChangeStateMessage(g, rustplus.serverId, 1), ServerMessage(g, rustplus.serverId, 2)];
    ReconnectState(st.outbox + notices, st.reconnecting[g := true], st.sessions - {g},
                   st.timers[g := Some(TimerFor(rustplus, delay))])
  }

  /** A run of drops for one guild sends the "disconnected" notices once, and leaves only
      the timer of the latest drop pending. */
  lemma {:induction false} RepeatedDropsNotifyOnce(st: ReconnectState, first: Session, second: Session, d1: int, d2: int)
    requires first.guildId == second.guildId
    ensures var after := Rescheduled(Rescheduled(st, first, d1), second, d2);
            && after.outbox == Rescheduled(st, first, d1).outbox
            && after.timers == st.timers[first.guildId := Some(TimerFor(second, d2))]
  {
    var mid := Rescheduled(st, first, d1);
    assert Flag(mid.reconnecting, second.guildId);
  }

  /** `scheduleRustplusReconnect(rustplus, client)`, with `configured` the configured
      interval. It declines for a missing or deleted session and for an inactive guild;
      otherwise it notifies (unless the guild was already reconnecting), raises the flag,
      drops the guild's session and replaces the guild's reconnect timer. */
  method ScheduleRustplusReconnect(client: Client, rustplus: Session?, configured: Number) returns (scheduled: bool)
    modifies client`outbox, client`rustplusReconnecting, client`rustplusInstances, client`rustplusReconnectTimers
    ensures scheduled == old(ShouldSchedule(rustplus, client.activeRustplusInstances))
    ensures !scheduled ==> ReconnectStateOf(client) == old(ReconnectStateOf(client))
    ensures scheduled ==>
              ReconnectStateOf(client) == Rescheduled(old(ReconnectStateOf(client)), rustplus, GetReconnectDelay(configured))
  {
    if rustplus == null || rustplus.isDeleted {
      return false;
    }
    var guildId := rustplus.guildId;
    if !Flag(client.activeRustplusInstances, guildId) {
      return false;
    }
    var serverId := rustplus.serverId;
    var alreadyReconnecting := Flag(client.rustplusReconnecting, guildId);
    if !alreadyReconnecting {
      client.outbox := client.outbox + [ServerChangeStateMessage(guildId, serverId, 1), ServerMessage(guildId, serverId, 2)];
    }
    client.rustplusReconnecting := client.rustplusReconnecting[guildId := true];
    client.rustplusInstances := client.rustplusInstances - {guildId};
    if guildId in client.rustplusReconnectTimers && client.rustplusReconnectTimers[guildId].Some? {
      client.rustplusReconnectTimers := client.rustplusReconnectTimers[guildId := None];
    }
    client.rustplusReconnectTimers :=
      client.rustplusReconnectTimers[guildId := Some(TimerFor(rustplus, GetReconnectDelay(configured)))];
    return true;
  }
}
