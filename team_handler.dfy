/** Keeping the team roster history up to date from a team-info poll, and refreshing the
    teams channel. */
module TeamHandler {
  import opened Common
  import opened Document
  import opened Bot
  import opened TeamRoster

  /** A team member as reported: its Steam id converted to a string (`None` for null or
      undefined) and its name (`name ?? ''`). */
  datatype Member = Member(steamId: Option<string>, name: NameValue)

  /** The upsert entries built from `members`: members without a usable Steam id are left
      out, and every entry carries `lastSeenAt`. */
  function UsableEntries(members: seq<Member>, lastSeenAt: Option<int>): (r: seq<Player>)
    ensures |r| <= |members|
    ensures forall p :: p in r ==> !Skipped(p) && p.lastSeenAt == lastSeenAt
    ensures forall i :: 0 <= i < |members| && members[i].steamId.Some? && members[i].steamId.value != [] ==>
              Player(members[i].steamId, members[i].name, lastSeenAt) in r
  {
    if members == [] then []
    else
      var m := members[|members| - 1];
      var init := UsableEntries(members[..|members| - 1], lastSeenAt);
      assert forall i :: 0 <= i < |members| - 1 ==> members[..|members| - 1][i] == members[i];
      init + (if m.steamId.None? || m.steamId.value == [] then [] else [Player(m.steamId, m.name, lastSeenAt)])
  }

  /** A member whose Steam id is present and non-empty. */
  predicate Usable(m: Member) {
    m.steamId.Some? && m.steamId.value != []
  }

  /** `idx` lists, in increasing order, the positions of the usable members of `members`,
      and entry `k` of `r` is built from the member at position `idx[k]`. */
  predicate EntriesFrom(r: seq<Player>, members: seq<Member>, idx: seq<int>, lastSeenAt: Option<int>) {
    && |idx| == |r|
    && (forall k :: 0 <= k < |idx| ==>
          0 <= idx[k] < |members| && Usable(members[idx[k]])
          && r[k] == Player(members[idx[k]].steamId, members[idx[k]].name, lastSeenAt))
    && (forall k, l :: 0 <= k < l < |idx| ==> idx[k] < idx[l])
    && (forall i :: 0 <= i < |members| && Usable(members[i]) ==> i in idx)
  }

  /** One more member extends the positions by its own when it is usable. */
  lemma EntriesFromStep(init: seq<Player>, front: seq<Member>, idx: seq<int>, m: Member, lastSeenAt: Option<int>)
    requires EntriesFrom(init, front, idx, lastSeenAt)
    ensures Usable(m) ==>
      EntriesFrom(init + [Player(m.steamId, m.name, lastSeenAt)], front + [m], idx + [|front|], lastSeenAt)
    ensures !Usable(m) ==> EntriesFrom(init, front + [m], idx, lastSeenAt)
  {
    var members := front + [m];
    assert forall i :: 0 <= i < |front| ==> members[i] == front[i];
  }

  /** The entries are the usable members, in member order: entry `k` comes from the
      member at position `idx[k]`, the positions increase, and every usable member has
      one. A later duplicate Steam id therefore comes later and wins in the upsert. */
  lemma {:induction false} UsableEntriesInOrder(members: seq<Member>, lastSeenAt: Option<int>)
    ensures exists idx: seq<int> :: EntriesFrom(UsableEntries(members, lastSeenAt), members, idx, lastSeenAt)
  {
    if members == [] {
      assert UsableEntries(members, lastSeenAt) == [];
      assert EntriesFrom(UsableEntries(members, lastSeenAt), members, [], lastSeenAt);
    } else {
      var n := |members| - 1;
      var front, m := members[..n], members[n];
      assert members == front + [m];
      UsableEntriesInOrder(front, lastSeenAt);
      var idx :| EntriesFrom(UsableEntries(front, lastSeenAt), front, idx, lastSeenAt);
      EntriesFromStep(UsableEntries(front, lastSeenAt), front, idx, m, lastSeenAt);
      if Usable(m) {
        assert EntriesFrom(UsableEntries(members, lastSeenAt), members, idx + [n], lastSeenAt);
      } else {
        assert EntriesFrom(UsableEntries(members, lastSeenAt), members, idx, lastSeenAt);
      }
    }
  }

  /** The entry-building loops of `updatePassthroughList`. */
  method CollectEntries(members: seq<Member>, lastSeenAt: Option<int>) returns (entries: seq<Player>)
    ensures entries == UsableEntries(members, lastSeenAt)
  {
    entries := [];
    var i := 0;
    while i < |members|
      invariant 0 <= i <= |members|
      invariant entries == UsableEntries(members[..i], lastSeenAt)
    {
      assert members[..i + 1][..i] == members[..i];
      var m := members[i];
      if m.steamId.Some? && m.steamId.value != [] {
        entries := entries + [Player(m.steamId, m.name, lastSeenAt)];
      }
      i := i + 1;
    }
    assert members[..|members|] == members;
  }

  /** The roster after both upserts: current members (seen now) first, then the players
      the connection remembers (names only); and whether either changed it. */
  function PassthroughRoster(roster: Roster, members: seq<Member>, players: seq<Member>, now: int): (Roster, bool) {
    var fromMembers := UpsertAll(roster, UsableEntries(members, Some(now)), UpsertOptions(true, Some(now)), now);
    var fromHistory := UpsertAll(fromMembers.0, UsableEntries(players, None), UpsertOptions(false, None), now);
    (fromHistory.0, fromMembers.1 || fromHistory.1)
  }

  /** Nothing is forgotten and every current member is remembered: the keys before are
      kept, every member with a usable Steam id is present, a non-empty name stays
      non-empty, and a non-zero `lastSeenAt` never moves back. */
  lemma {:induction false} PassthroughRosterGrows(roster: Roster, members: seq<Member>, players: seq<Member>, now: int)
    ensures var after := PassthroughRoster(roster, members, players, now).0;
            && (forall i :: 0 <= i < |members| && members[i].steamId.Some? && members[i].steamId.value != [] ==>
                  members[i].steamId.value in after)
            && (forall k :: k in roster ==> k in after && (roster[k].name != [] ==> after[k].name != []))
            && (forall k :: k in roster && Truthy(roster[k].lastSeenAt) ==>
                  Truthy(after[k].lastSeenAt) && after[k].lastSeenAt.value >= roster[k].lastSeenAt.value)
  {
    var current := UsableEntries(members, Some(now));
    var history := UsableEntries(players, None);
    var mid := UpsertAll(roster, current, UpsertOptions(true, Some(now)), now).0;
    var after := UpsertAll(mid, history, UpsertOptions(false, None), now).0;
    forall i | 0 <= i < |members| && members[i].steamId.Some? && members[i].steamId.value != []
      ensures members[i].steamId.value in after
    {
      var k := members[i].steamId.value;
      var j :| 0 <= j < |current| && current[j] == Player(members[i].steamId, members[i].name, Some(now));
      assert Brings(current, j, k);
      UpsertAllKeys(roster, current, UpsertOptions(true, Some(now)), now, k);
      UpsertAllKeepsEntries(mid, history, UpsertOptions(false, None), now, k);
    }
    forall k | k in roster
      ensures k in after && (roster[k].name != [] ==> after[k].name != [])
      ensures Truthy(roster[k].lastSeenAt) ==>
                Truthy(after[k].lastSeenAt) && after[k].lastSeenAt.value >= roster[k].lastSeenAt.value
    {
      UpsertAllKeepsEntries(roster, current, UpsertOptions(true, Some(now)), now, k);
      UpsertAllKeepsEntries(mid, history, UpsertOptions(false, None), now, k);
    }
  }

  /** `instance.channelId.teams ?? instance.channelId.passthrough` is set and non-empty. */
  predicate HasTeamsChannel(inst: Instance) {
    var channel := if inst.channelTeams.Some? then inst.channelTeams else inst.channelPassthrough;
    channel.Some? && channel.value != []
  }

  /** The instance `updatePassthroughList` saves, and whether it saves it. */
  function PassthroughInstance(inst: Instance, serverId: ServerId, members: seq<Member>, players: seq<Member>, now: int)
    : (r: (Instance, bool))
    ensures !r.1 ==> r.0 == inst
    ensures r.0.teamRosterHistory.Some? ==> r.0 == inst.(teamRosterHistory := r.0.teamRosterHistory)
  {
    var ensured := EnsureTeamRoster(inst, serverId);
    var updated := PassthroughRoster(ensured.roster, members, players, now);
    var history := ensured.instance.teamRosterHistory.value;
    if ensured.changed || updated.1 then
      (ensured.instance.(teamRosterHistory := Some(history[serverId := updated.0])), true)
    else
      (inst, false)
  }

  /** `updatePassthroughList(rustplus, client, teamInfo)` for the connection's guild and
      server. `members` is `teamInfo.members` (`None` when it is not an array), `players`
      the players the connection's team remembers and `now` the current time. Nothing
      happens for a server the guild no longer has. Otherwise the roster is ensured and
      updated, the instance is saved only when something changed, and the teams message
      is refreshed when a teams (or passthrough) channel is set. */
  method UpdatePassthroughList(client: Client, session: Session, members: Option<seq<Member>>, players: seq<Member>,
                               now: int)
    requires session.guildId in client.instances
    modifies client`instances, client`outbox
    ensures var inst := old(client.instances[session.guildId]);
            session.serverId !in inst.serverList ==>
              client.instances == old(client.instances) && client.outbox == old(client.outbox)
    ensures var inst := old(client.instances[session.guildId]);
            var current := if members.Some? then members.value else [];
            var saved := PassthroughInstance(inst, session.serverId, current, players, now);
            session.serverId in inst.serverList ==>
              && client.instances == (if saved.1 then old(client.instances)[session.guildId := saved.0]
                                      else old(client.instances))
              && client.outbox == old(client.outbox)
                   + (if HasTeamsChannel(inst) then [TeamsMessage(session.guildId, session.serverId)] else [])
  {
    var instance := client.instances[session.guildId];
    var serverId := session.serverId;
    if serverId !in instance.serverList {
      return;
    }
    var rosterResult := EnsureTeamRoster(instance, serverId);
    instance := rosterResult.instance;
    var current := if members.Some? then members.value else [];
    var memberEntries := CollectEntries(current, Some(now));
    var updatedFromMembers, roster := UpsertRosterPlayers(Some(rosterResult.roster), memberEntries,
                                                          UpsertOptions(true, Some(now)), now);
    var historicalEntries := CollectEntries(players, None);
    var updatedFromHistory, roster' := UpsertRosterPlayers(roster, historicalEntries, UpsertOptions(false, None), now);
    ghost var updated := PassthroughRoster(rosterResult.roster, current, players, now);
    assert roster' == Some(updated.0) && (updatedFromMembers || updatedFromHistory) == updated.1;
    if rosterResult.changed || updatedFromMembers || updatedFromHistory {
      instance := instance.(teamRosterHistory := Some(instance.teamRosterHistory.value[serverId := roster'.value]));
      client.instances := client.instances[session.guildId := instance];
    }
    if HasTeamsChannel(instance) {
      client.outbox := client.outbox + [TeamsMessage(session.guildId, serverId)];
    }
  }
}
