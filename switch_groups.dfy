/** Smart-switch groups: sync defaults, the keyed table of group-sync revert timers, the
    sync state machine run on every switch report, the revert fire, batch actuation of a
    group and the in-game group command (src/handlers/smartSwitchGroupHandler.js). */
module SmartSwitchGroups {
  import opened Common
  import opened Strings
  import opened Document
  import opened Bot

  const DefaultSyncDelay: int := 60

  // ---------------------------------------------------------------------------------
  // Sync defaults

  /** The group after `ensureGroupSyncDefaults`: each missing sync field gets its default
      (`syncEnabled = false`, `syncDelay = 60`, `syncState = {}`), present ones are kept. */
  function WithSyncDefaults(g: SwitchGroup): (r: SwitchGroup)
    ensures r.syncEnabled.Some? && r.syncDelay.Some? && r.syncState.Some?
    ensures r.syncEnabled == (if g.syncEnabled.Some? then g.syncEnabled else Some(false))
    ensures r.syncDelay == (if g.syncDelay.Some? then g.syncDelay else Some(DefaultSyncDelay))
    ensures r.syncState == (if g.syncState.Some? then g.syncState else Some(map[]))
    ensures r.name == g.name && r.command == g.command && r.switches == g.switches
  {
    g.(syncEnabled := if g.syncEnabled.Some? then g.syncEnabled else Some(false),
       syncDelay := if g.syncDelay.Some? then g.syncDelay else Some(DefaultSyncDelay),
       syncState := if g.syncState.Some? then g.syncState else Some(map[]))
  }

  /** Applying the defaults to a group that already has them changes nothing. */
  lemma WithSyncDefaultsIdempotent(g: SwitchGroup)
    ensures WithSyncDefaults(WithSyncDefaults(g)) == WithSyncDefaults(g)
  {
  }

  predicate SyncEnabled(g: SwitchGroup) { g.syncEnabled == Some(true) }

  function SyncDelay(g: SwitchGroup): int { if g.syncDelay.Some? then g.syncDelay.value else DefaultSyncDelay }

  function SyncState(g: SwitchGroup): map<SwitchId, bool> { if g.syncState.Some? then g.syncState.value else map[] }

  function SetGroup(inst: Instance, serverId: ServerId, groupId: GroupId, g: SwitchGroup): Instance
    requires serverId in inst.serverList
  {
    var server := inst.serverList[serverId];
    inst.(serverList := inst.serverList[serverId := server.(switchGroups := server.switchGroups[groupId := g])])
  }

  function SetSwitch(inst: Instance, serverId: ServerId, switchId: SwitchId, sw: SmartSwitch): Instance
    requires serverId in inst.serverList
  {
    var server := inst.serverList[serverId];
    inst.(serverList := inst.serverList[serverId := server.(switches := server.switches[switchId := sw])])
  }

  datatype Ensured = Ensured(instance: Instance, group: Option<SwitchGroup>)

  /** `ensureGroupSyncDefaults(instance, serverId, groupId)`: no group (null) and no change
      when the server or the group is missing; otherwise the stored group gets its defaults
      and is returned. Nothing else in the document changes. */
  function EnsureGroupSyncDefaults(inst: Instance, serverId: ServerId, groupId: GroupId): (r: Ensured)
    ensures r.group.None? <==> serverId !in inst.serverList || groupId !in inst.serverList[serverId].switchGroups
    ensures r.group.None? ==> r.instance == inst
    ensures r.group.Some? ==> r.group.value == WithSyncDefaults(inst.serverList[serverId].switchGroups[groupId])
    ensures r.group.Some? ==> r.instance == SetGroup(inst, serverId, groupId, r.group.value)
  {
    if serverId !in inst.serverList || groupId !in inst.serverList[serverId].switchGroups then
      Ensured(inst, None)
    else
      var g := WithSyncDefaults(inst.serverList[serverId].switchGroups[groupId]);
      Ensured(SetGroup(inst, serverId, groupId, g), Some(g))
  }

  /** A second `ensureGroupSyncDefaults` leaves the document as the first one left it. */
  lemma {:induction false} EnsureGroupSyncDefaultsIdempotent(inst: Instance, serverId: ServerId, groupId: GroupId)
    ensures var once := EnsureGroupSyncDefaults(inst, serverId, groupId);
            EnsureGroupSyncDefaults(once.instance, serverId, groupId) == once
  {
    var once := EnsureGroupSyncDefaults(inst, serverId, groupId);
    if once.group.Some? {
      var server := once.instance.serverList[serverId];
      assert server.switchGroups[groupId] == once.group.value;
      WithSyncDefaultsIdempotent(inst.serverList[serverId].switchGroups[groupId]);
      assert server.switchGroups[groupId := once.group.value] == server.switchGroups;
      assert once.instance.serverList[serverId := server] == once.instance.serverList;
    }
  }

  // ---------------------------------------------------------------------------------
  // Timer keys

  /** `getGroupSyncTimeoutKey`: `groupId:switchId`. */
  function TimeoutKey(groupId: GroupId, switchId: SwitchId): (k: string)
    ensures StartsWith(k, groupId + ":")
    ensures |k| == |groupId| + 1 + |switchId|
    ensures k[|groupId| + 1..] == switchId
  {
    groupId + ":" + switchId
  }

  /** For group ids without a colon the key determines the group and the switch. */
  /** Position of the first colon in `s` (`|s|` when there is none). */
  function ColonIndex(s: string): (i: nat)
    ensures i <= |s|
  {
    if s == [] || s[0] == ':' then 0 else 1 + ColonIndex(s[1..])
  }

  lemma {:induction false} ColonIndexAfter(g: string, rest: string)
    requires ':' !in g
    ensures ColonIndex(g + ":" + rest) == |g|
  {
    if g != [] {
      assert (g + ":" + rest)[1..] == g[1..] + ":" + rest;
      ColonIndexAfter(g[1..], rest);
    }
  }

  /** For group ids without a colon the key determines the group and the switch. */
  lemma {:induction false} TimeoutKeyInjective(g1: GroupId, s1: SwitchId, g2: GroupId, s2: SwitchId)
    requires ':' !in g1 && ':' !in g2
    requires TimeoutKey(g1, s1) == TimeoutKey(g2, s2)
    ensures g1 == g2 && s1 == s2
  {
    var k := TimeoutKey(g1, s1);
    ColonIndexAfter(g1, s1);
    ColonIndexAfter(g2, s2);
    assert |g1| == |g2|;
    assert g1 == k[..|g1|] == g2;
  }

  /** Keys of one switch in two groups are equal exactly when the groups are. */
  lemma {:induction false} TimeoutKeySameSwitch(g1: GroupId, g2: GroupId, s: SwitchId)
    ensures TimeoutKey(g1, s) == TimeoutKey(g2, s) <==> g1 == g2
  {
    if TimeoutKey(g1, s) == TimeoutKey(g2, s) {
      var k := TimeoutKey(g1, s);
      assert g1 == k[..|g1|];
      assert g2 == k[..|g2|];
    }
  }

  /** For colon-free group ids, the prefix `groupId:` selects exactly that group's keys. */
  lemma {:induction false} TimeoutKeyPrefix(g: GroupId, other: GroupId, s: SwitchId)
    requires ':' !in g && ':' !in other
    ensures StartsWith(TimeoutKey(other, s), g + ":") <==> other == g
  {
    var k := TimeoutKey(other, s);
    if StartsWith(k, g + ":") {
      var rest := k[|g| + 1..];
      assert k == g + ":" + rest;
      ColonIndexAfter(g, rest);
      ColonIndexAfter(other, s);
      assert g == k[..|g|] == other;
    }
  }

  // ---------------------------------------------------------------------------------
  // Clearing timers

  /** The timer table after `clearGroupSyncTimeouts(groupId, switchId)`: with a switch id
      exactly the key `groupId:switchId` is gone, without one every key starting with
      `groupId:`; every other entry is kept as it was. */
  function ClearedTable(t: map<string, PendingRevert>, groupId: GroupId, switchId: Option<SwitchId>)
    : (r: map<string, PendingRevert>)
    ensures switchId.Some? ==> r.Keys == t.Keys - {TimeoutKey(groupId, switchId.value)}
    ensures switchId.None? ==> forall k :: k in r <==> k in t && !StartsWith(k, groupId + ":")
    ensures forall k :: k in r ==> k in t && r[k] == t[k]
  {
    if switchId.Some? then t - {TimeoutKey(groupId, switchId.value)}
    else map k | k in t && !StartsWith(k, groupId + ":") :: t[k]
  }

  /** `clearGroupSyncTimeouts(rustplus, groupId, switchId)`; a missing session is a no-op. */
  method ClearGroupSyncTimeouts(s: Session?, groupId: GroupId, switchId: Option<SwitchId>)
    modifies AsFrame(s)`groupSyncTimeouts
    ensures s != null ==> s.groupSyncTimeouts == ClearedTable(old(s.groupSyncTimeouts), groupId, switchId)
  {
    if s == null {
      return;
    }
    if switchId.Some? {
      var key := TimeoutKey(groupId, switchId.value);
      if key in s.groupSyncTimeouts {
        s.groupSyncTimeouts := s.groupSyncTimeouts - {key};
      }
      return;
    }
    var prefix := groupId + ":";
    var remaining := s.groupSyncTimeouts.Keys;
    while remaining != {}
      invariant remaining <= old(s.groupSyncTimeouts).Keys
      invariant forall k :: k in s.groupSyncTimeouts <==>
        k in old(s.groupSyncTimeouts) && (k in remaining || !StartsWith(k, prefix))
      invariant forall k :: k in s.groupSyncTimeouts ==> s.groupSyncTimeouts[k] == old(s.groupSyncTimeouts)[k]
      decreases remaining
    {
      var key :| key in remaining;
      if StartsWith(key, prefix) {
        s.groupSyncTimeouts := s.groupSyncTimeouts - {key};
      }
      remaining := remaining - {key};
    }
  }

  // ---------------------------------------------------------------------------------
  // Scheduling a revert

  /** Whether `scheduleGroupSyncRevert` installs a timer: the session belongs to the server
      and the group exists with sync enabled and a positive delay (defaults applied). */
  predicate RevertArmed(inst: Instance, sessionServer: ServerId, serverId: ServerId, groupId: GroupId) {
    && sessionServer == serverId
    && serverId in inst.serverList
    && groupId in inst.serverList[serverId].switchGroups
    && var g := WithSyncDefaults(inst.serverList[serverId].switchGroups[groupId]);
       SyncEnabled(g) && SyncDelay(g) > 0
  }

  /** `scheduleGroupSyncRevert`: installs (replacing any earlier one) exactly one pending
      revert under `groupId:switchId`, or does nothing. The defaults it applies to its own
      copy of the document are not saved. */
  method ScheduleGroupSyncRevert(client: Client, s: Session?, guildId: GuildId, serverId: ServerId,
                                 groupId: GroupId, switchId: SwitchId)
    requires guildId in client.instances
    modifies AsFrame(s)`groupSyncTimeouts
    ensures s != null ==> (s.groupSyncTimeouts ==
      if RevertArmed(client.instances[guildId], s.serverId, serverId, groupId)
      then old(s.groupSyncTimeouts)[TimeoutKey(groupId, switchId) :=
             PendingRevert(guildId, serverId, groupId, switchId)]
      else old(s.groupSyncTimeouts))
  {
    if s == null || s.serverId != serverId {
      return;
    }
    var ensured := EnsureGroupSyncDefaults(client.instances[guildId], serverId, groupId);
    if ensured.group.None? || !SyncEnabled(ensured.group.value) || SyncDelay(ensured.group.value) <= 0 {
      return;
    }
    var key := TimeoutKey(groupId, switchId);
    s.groupSyncTimeouts := s.groupSyncTimeouts[key := PendingRevert(guildId, serverId, groupId, switchId)];
  }

  /** Scheduling twice under one key leaves one pending revert: the later one. */
  lemma ScheduleSupersedes(t: map<string, PendingRevert>, k: string, first: PendingRevert, second: PendingRevert)
    ensures t[k := first][k := second] == t[k := second]
  {
  }

  // ---------------------------------------------------------------------------------
  // Firing a revert

  datatype FireDecision = Stale | Actuate(target: bool)

  /** What the revert callback decides once it has re-read the world: `Actuate(target)`
      exactly when the current session is on the captured server, the server, group and
      switch still exist, sync is still enabled, a boolean target is declared and the
      switch is not already at it. */
  function RevertDecision(currentServer: Option<ServerId>, inst: Instance, rec: PendingRevert): (d: FireDecision)
    ensures d.Actuate? <==>
      && currentServer == Some(rec.serverId)
      && rec.serverId in inst.serverList
      && rec.groupId in inst.serverList[rec.serverId].switchGroups
      && rec.switchId in inst.serverList[rec.serverId].switches
      && SyncEnabled(WithSyncDefaults(inst.serverList[rec.serverId].switchGroups[rec.groupId]))
      && rec.switchId in SyncState(inst.serverList[rec.serverId].switchGroups[rec.groupId])
      && inst.serverList[rec.serverId].switches[rec.switchId].active
         != SyncState(inst.serverList[rec.serverId].switchGroups[rec.groupId])[rec.switchId]
    ensures d.Actuate? ==>
      d.target == SyncState(inst.serverList[rec.serverId].switchGroups[rec.groupId])[rec.switchId]
  {
    if currentServer != Some(rec.serverId) || rec.serverId !in inst.serverList then Stale
    else
      var server := inst.serverList[rec.serverId];
      if rec.groupId !in server.switchGroups || rec.switchId !in server.switches then Stale
      else
        var g := WithSyncDefaults(server.switchGroups[rec.groupId]);
        if !SyncEnabled(g) || rec.switchId !in SyncState(g) then Stale
        else if server.switches[rec.switchId].active == SyncState(g)[rec.switchId] then Stale
        else Actuate(SyncState(g)[rec.switchId])
  }

  /** The document after a successful revert: the switch is at the target and reachable,
      and the group's defaults (applied during the re-check) are saved with it. The
      declared target (`syncState`) is not rewritten. */
  function RevertedInstance(inst: Instance, rec: PendingRevert, target: bool): Instance
    requires rec.serverId in inst.serverList
    requires rec.groupId in inst.serverList[rec.serverId].switchGroups
    requires rec.switchId in inst.serverList[rec.serverId].switches
  {
    var ensured := EnsureGroupSyncDefaults(inst, rec.serverId, rec.groupId).instance;
    var sw := inst.serverList[rec.serverId].switches[rec.switchId];
    SetSwitch(ensured, rec.serverId, rec.switchId, sw.(active := target, reachable := true))
  }

  /** Recording an interaction and then filtering it out is the same as filtering alone. */
  lemma {:induction false} WithoutAppended(s: seq<SwitchId>, x: SwitchId)
    ensures Without(s + [x], x) == Without(s, x)
  {
    if s == [] {
      assert Without([x], x) == [] + Without([], x);
    } else {
      WithoutAppended(s[1..], x);
      assert (s + [x])[1..] == s[1..] + [x];
    }
  }

  function SessionServer(s: Session?): Option<ServerId> {
    if s == null then None else Some(s.serverId)
  }

  /** The revert timer stored under `key` in `owner`'s table fires. The timer is spent (it
      leaves the pending table); the callback then re-checks the world against the guild's
      current session and document. A stale fire only clears the key on the current
      session. Otherwise the switch is turned to the declared target; an invalid response
      writes nothing, a valid one marks the switch at the target and reachable, saves the
      document and sends the switch and group messages. */
  method FireGroupSyncRevert(client: Client, owner: Session, key: string, responseValid: bool)
    requires key in owner.groupSyncTimeouts
    requires owner.groupSyncTimeouts[key].guildId in client.instances
    modifies client`instances, client`outbox, owner`groupSyncTimeouts
    modifies SessionFrame(client, owner.groupSyncTimeouts[key].guildId)`groupSyncTimeouts
    modifies SessionFrame(client, owner.groupSyncTimeouts[key].guildId)`interactionSwitches
    ensures var rec := old(owner.groupSyncTimeouts[key]);
            var cur := old(CurrentSession(client, rec.guildId));
            var d := RevertDecision(SessionServer(cur), old(client.instances[rec.guildId]), rec);
            && (cur != owner ==> owner.groupSyncTimeouts == old(owner.groupSyncTimeouts) - {key})
            && (cur != null ==> (cur.groupSyncTimeouts ==
                  ClearedTable(old(if cur == owner then owner.groupSyncTimeouts - {key} else cur.groupSyncTimeouts),
                               rec.groupId, Some(rec.switchId))))
            && (d.Stale? ==> client.instances == old(client.instances) && client.outbox == old(client.outbox))
            && (d.Stale? && cur != null ==> cur.interactionSwitches == old(cur.interactionSwitches))
            && (d.Actuate? && !responseValid ==>
                  && client.instances == old(client.instances)
                  && client.outbox == old(client.outbox) + [TurnSmartSwitch(rec.guildId, rec.switchId, d.target)]
                  && cur.interactionSwitches == Without(old(cur.interactionSwitches), rec.switchId))
            && (d.Actuate? && responseValid ==>
                  && client.instances == old(client.instances)[rec.guildId :=
                       RevertedInstance(old(client.instances[rec.guildId]), rec, d.target)]
                  && client.outbox == old(client.outbox) + [TurnSmartSwitch(rec.guildId, rec.switchId, d.target),
                       SmartSwitchMessage(rec.guildId, rec.serverId, rec.switchId),
                       SmartSwitchGroupMessage(rec.guildId, rec.serverId, rec.groupId)]
                  && cur.interactionSwitches == old(cur.interactionSwitches) + [rec.switchId])
  {
    var rec := owner.groupSyncTimeouts[key];
    owner.groupSyncTimeouts := owner.groupSyncTimeouts - {key};
    var cur := CurrentSession(client, rec.guildId);
    var inst := client.instances[rec.guildId];
    var d := RevertDecision(SessionServer(cur), inst, rec);
    if d.Stale? {
      ClearGroupSyncTimeouts(cur, rec.groupId, Some(rec.switchId));
      return;
    }
    var target := d.target;
    cur.interactionSwitches := cur.interactionSwitches + [rec.switchId];
    client.outbox := client.outbox + [TurnSmartSwitch(rec.guildId, rec.switchId, target)];
    if !responseValid {
      WithoutAppended(old(cur.interactionSwitches), rec.switchId);
      cur.interactionSwitches := Without(cur.interactionSwitches, rec.switchId);
      ClearGroupSyncTimeouts(cur, rec.groupId, Some(rec.switchId));
      return;
    }
    client.instances := client.instances[rec.guildId := RevertedInstance(inst, rec, target)];
    client.outbox := client.outbox + [SmartSwitchMessage(rec.guildId, rec.serverId, rec.switchId),
                                      SmartSwitchGroupMessage(rec.guildId, rec.serverId, rec.groupId)];
    ClearGroupSyncTimeouts(cur, rec.groupId, Some(rec.switchId));
  }

  // ---------------------------------------------------------------------------------
  // A switch report: the per-group sync state machine

  datatype SyncAction = Untouched | Cancel | Schedule

  /** What a report of switch `sw` does to one group `g` (defaults applied), given the
      switch's `active` flag when the server knows the switch (`None` otherwise). Groups
      without the switch are untouched; a pending revert is scheduled exactly when sync is
      enabled with a positive delay and the switch is away from its declared target; in
      every other case pending reverts for it are cancelled. A switch without a declared
      target is taken to be at it (the report itself becomes the target). */
  function SyncActionFor(g: SwitchGroup, sw: SwitchId, active: Option<bool>): (r: SyncAction)
    ensures r == Untouched <==> sw !in g.switches
    ensures r == Schedule <==>
      && sw in g.switches && SyncEnabled(g) && active.Some? && SyncDelay(g) > 0
      && sw in SyncState(g) && SyncState(g)[sw] != active.value
  {
    if sw !in g.switches then Untouched
    else if !SyncEnabled(g) || active.None? then Cancel
    else
      var target := if sw in SyncState(g) then SyncState(g)[sw] else active.value;
      if SyncDelay(g) > 0 && active.value != target then Schedule else Cancel
  }

  /** The report declares the current state as the group's target for `sw`: sync on,
      switch known, and no boolean target stored yet. */
  predicate Bootstraps(g: SwitchGroup, sw: SwitchId, active: Option<bool>) {
    sw in g.switches && SyncEnabled(g) && active.Some? && sw !in SyncState(g)
  }

  /** The group as the report leaves it in the local document copy. */
  function ReportedGroup(g: SwitchGroup, sw: SwitchId, active: Option<bool>): (r: SwitchGroup)
    ensures r.name == g.name && r.command == g.command && r.switches == g.switches
    ensures r.syncEnabled == g.syncEnabled && r.syncDelay == g.syncDelay
  {
    if Bootstraps(g, sw, active) then g.(syncState := Some(SyncState(g)[sw := active.value])) else g
  }

  /** After a report every member group with sync on has a declared target for the switch,
      and a bootstrapping report never schedules a revert. */
  lemma {:induction false} ReportDeclaresTarget(g: SwitchGroup, sw: SwitchId, active: Option<bool>)
    requires sw in g.switches && SyncEnabled(g) && active.Some?
    ensures sw in SyncState(ReportedGroup(g, sw, active))
    ensures Bootstraps(g, sw, active) ==>
      SyncState(ReportedGroup(g, sw, active))[sw] == active.value && SyncActionFor(g, sw, active) == Cancel
    ensures !Bootstraps(g, sw, active) ==> ReportedGroup(g, sw, active) == g
  {
    if Bootstraps(g, sw, active) {
      assert SyncState(ReportedGroup(g, sw, active)) == SyncState(g)[sw := active.value];
    }
  }

  /** A second identical report bootstraps nothing and takes the same timer action. */
  lemma {:induction false} ReportStable(g: SwitchGroup, sw: SwitchId, active: Option<bool>)
    ensures !Bootstraps(ReportedGroup(g, sw, active), sw, active)
    ensures ReportedGroup(ReportedGroup(g, sw, active), sw, active) == ReportedGroup(g, sw, active)
    ensures SyncActionFor(ReportedGroup(g, sw, active), sw, active) == SyncActionFor(g, sw, active)
  {
    var r := ReportedGroup(g, sw, active);
    if Bootstraps(g, sw, active) {
      assert SyncState(r) == SyncState(g)[sw := active.value];
      assert sw in SyncState(r);
    }
  }

  function SwitchActive(server: Server, sw: SwitchId): Option<bool> {
    if sw in server.switches then Some(server.switches[sw].active) else None
  }

  /** One group's effect on the pending table. A revert is armed only when the guild's
      session is on this server (`onServer`). */
  function ReportStep(t: map<string, PendingRevert>, guildId: GuildId, serverId: ServerId,
                      groupId: GroupId, sw: SwitchId, action: SyncAction, onServer: bool): map<string, PendingRevert>
  {
    match action
    case Untouched => t
    case Cancel => t - {TimeoutKey(groupId, sw)}
    case Schedule =>
      if onServer then t[TimeoutKey(groupId, sw) := PendingRevert(guildId, serverId, groupId, sw)] else t
  }

  /** The pending table after the report has visited the groups of `order` in turn. */
  function ReportTable(t: map<string, PendingRevert>, guildId: GuildId, serverId: ServerId, server: Server,
                       order: seq<GroupId>, sw: SwitchId, onServer: bool): map<string, PendingRevert>
    requires forall gid :: gid in order ==> gid in server.switchGroups
  {
    if order == [] then t
    else
      var gid := order[|order| - 1];
      ReportStep(ReportTable(t, guildId, serverId, server, order[..|order| - 1], sw, onServer),
                 guildId, serverId, gid, sw,
                 SyncActionFor(WithSyncDefaults(server.switchGroups[gid]), sw, SwitchActive(server, sw)), onServer)
  }

  function Lookup(t: map<string, PendingRevert>, k: string): Option<PendingRevert> {
    if k in t then Some(t[k]) else None
  }

  /** The key of every visited group is dropped when that group cancels, holds the new
      revert when it schedules (and the session is on the server), and is otherwise as
      before. Keys of one switch in different groups never collide, so the order of the
      visit does not matter. */
  lemma {:induction false} ReportTableVisited(t: map<string, PendingRevert>, guildId: GuildId, serverId: ServerId,
                                              server: Server, order: seq<GroupId>, sw: SwitchId, onServer: bool)
    requires forall gid :: gid in order ==> gid in server.switchGroups
    ensures forall gid {:trigger TimeoutKey(gid, sw)} :: gid in order ==>
      var a := SyncActionFor(WithSyncDefaults(server.switchGroups[gid]), sw, SwitchActive(server, sw));
      Lookup(ReportTable(t, guildId, serverId, server, order, sw, onServer), TimeoutKey(gid, sw))
        == (if a == Cancel then None
            else if a == Schedule && onServer then Some(PendingRevert(guildId, serverId, gid, sw))
            else Lookup(t, TimeoutKey(gid, sw)))
  {
    if order != [] {
      var init := order[..|order| - 1];
      var last := order[|order| - 1];
      ReportTableVisited(t, guildId, serverId, server, init, sw, onServer);
      ReportTableOthers(t, guildId, serverId, server, init, sw, onServer);
      forall gid | gid in init && gid != last
        ensures TimeoutKey(gid, sw) != TimeoutKey(last, sw)
      {
        TimeoutKeySameSwitch(gid, last, sw);
      }
      assert forall gid :: gid in order ==> gid in init || gid == last;
    }
  }

  /** Every key that belongs to no visited group is untouched by the report. */
  lemma {:induction false} ReportTableOthers(t: map<string, PendingRevert>, guildId: GuildId, serverId: ServerId,
                                             server: Server, order: seq<GroupId>, sw: SwitchId, onServer: bool)
    requires forall gid :: gid in order ==> gid in server.switchGroups
    ensures forall k :: (forall gid :: gid in order ==> k != TimeoutKey(gid, sw)) ==>
      Lookup(ReportTable(t, guildId, serverId, server, order, sw, onServer), k) == Lookup(t, k)
  {
    if order != [] {
      var init := order[..|order| - 1];
      var last := order[|order| - 1];
      ReportTableOthers(t, guildId, serverId, server, init, sw, onServer);
      forall k | forall gid :: gid in order ==> k != TimeoutKey(gid, sw)
        ensures Lookup(ReportTable(t, guildId, serverId, server, order, sw, onServer), k) == Lookup(t, k)
      {
        assert forall gid :: gid in init ==> gid in order;
        assert k != TimeoutKey(last, sw);
      }
    }
  }

  /** The report's effect on the pending table, key by key: visited keys as
      `ReportTableVisited` states, every other key untouched. */
  lemma ReportTablePointwise(t: map<string, PendingRevert>, guildId: GuildId, serverId: ServerId,
                             server: Server, order: seq<GroupId>, sw: SwitchId, onServer: bool)
    requires forall gid :: gid in order ==> gid in server.switchGroups
    ensures forall gid {:trigger TimeoutKey(gid, sw)} :: gid in order ==>
      var a := SyncActionFor(WithSyncDefaults(server.switchGroups[gid]), sw, SwitchActive(server, sw));
      Lookup(ReportTable(t, guildId, serverId, server, order, sw, onServer), TimeoutKey(gid, sw))
        == (if a == Cancel then None
            else if a == Schedule && onServer then Some(PendingRevert(guildId, serverId, gid, sw))
            else Lookup(t, TimeoutKey(gid, sw)))
    ensures forall k :: (forall gid :: gid in order ==> k != TimeoutKey(gid, sw)) ==>
      Lookup(ReportTable(t, guildId, serverId, server, order, sw, onServer), k) == Lookup(t, k)
  {
    ReportTableVisited(t, guildId, serverId, server, order, sw, onServer);
    ReportTableOthers(t, guildId, serverId, server, order, sw, onServer);
  }

  /** The group messages a report sends: one per group containing the switch, in order. */
  function ReportMessages(guildId: GuildId, serverId: ServerId, server: Server, order: seq<GroupId>, sw: SwitchId)
    : seq<Event>
    requires forall gid :: gid in order ==> gid in server.switchGroups
  {
    if order == [] then []
    else
      var gid := order[|order| - 1];
      ReportMessages(guildId, serverId, server, order[..|order| - 1], sw)
      + (if sw in server.switchGroups[gid].switches then [SmartSwitchGroupMessage(guildId, serverId, gid)] else [])
  }

  /** Exactly the groups containing the switch are announced. */
  lemma {:induction false} ReportMessagesExactly(guildId: GuildId, serverId: ServerId, server: Server,
                                                 order: seq<GroupId>, sw: SwitchId)
    requires forall gid :: gid in order ==> gid in server.switchGroups
    ensures forall gid :: SmartSwitchGroupMessage(guildId, serverId, gid) in ReportMessages(guildId, serverId, server, order, sw)
                          <==> gid in order && sw in server.switchGroups[gid].switches
    ensures forall e :: e in ReportMessages(guildId, serverId, server, order, sw) ==> e.SmartSwitchGroupMessage?
  {
    if order != [] {
      var init := order[..|order| - 1];
      ReportMessagesExactly(guildId, serverId, server, init, sw);
      assert forall g :: g in order <==> g in init || g == order[|order| - 1];
    }
  }

  /** Whether the report bootstraps a target in one of the groups of `order`. */
  function BootstrapsIn(server: Server, order: seq<GroupId>, sw: SwitchId): bool
    requires forall gid :: gid in order ==> gid in server.switchGroups
  {
    order != [] &&
      (BootstrapsIn(server, order[..|order| - 1], sw)
       || Bootstraps(WithSyncDefaults(server.switchGroups[order[|order| - 1]]), sw, SwitchActive(server, sw)))
  }

  lemma {:induction false} BootstrapsInExists(server: Server, order: seq<GroupId>, sw: SwitchId)
    requires forall gid :: gid in order ==> gid in server.switchGroups
    ensures BootstrapsIn(server, order, sw) <==>
      exists gid :: gid in order && Bootstraps(WithSyncDefaults(server.switchGroups[gid]), sw, SwitchActive(server, sw))
  {
    if order != [] {
      BootstrapsInExists(server, order[..|order| - 1], sw);
      assert forall g :: g in order <==> g in order[..|order| - 1] || g == order[|order| - 1];
    }
  }

  /** Whether the report bootstraps a target in some group of the server. */
  predicate AnyBootstrap(server: Server, sw: SwitchId) {
    exists gid :: gid in server.switchGroups && Bootstraps(WithSyncDefaults(server.switchGroups[gid]), sw, SwitchActive(server, sw))
  }

  /** The server as the report leaves the local copy: every group has its defaults, and
      the groups the report bootstraps hold the new target. */
  function ReportedServer(server: Server, sw: SwitchId): (r: Server)
    ensures r.switches == server.switches && r.switchOrder == server.switchOrder
    ensures r.groupOrder == server.groupOrder && r.switchGroups.Keys == server.switchGroups.Keys
  {
    server.(switchGroups := ReportedGroups(server, server.groupOrder, sw))
  }

  /** The groups after the report has visited those in `visited`. */
  function ReportedGroups(server: Server, visited: seq<GroupId>, sw: SwitchId): (r: map<GroupId, SwitchGroup>)
    ensures r.Keys == server.switchGroups.Keys
  {
    map gid | gid in server.switchGroups ::
      if gid in visited then ReportedGroup(WithSyncDefaults(server.switchGroups[gid]), sw, SwitchActive(server, sw))
      else server.switchGroups[gid]
  }

  function SetServer(inst: Instance, serverId: ServerId, server: Server): Instance {
    inst.(serverList := inst.serverList[serverId := server])
  }

  /** One iteration of the report: cancel or schedule for group `gid`, then announce it. */
  method ReportToGroup(client: Client, session: Session?, guildId: GuildId, serverId: ServerId,
                       gid: GroupId, sw: SwitchId)
    requires guildId in client.instances && serverId in client.instances[guildId].serverList
    requires gid in client.instances[guildId].serverList[serverId].switchGroups
    modifies client`outbox, AsFrame(session)`groupSyncTimeouts
    ensures var server := client.instances[guildId].serverList[serverId];
            var action := SyncActionFor(WithSyncDefaults(server.switchGroups[gid]), sw, SwitchActive(server, sw));
            && client.outbox == old(client.outbox)
                 + (if action != Untouched then [SmartSwitchGroupMessage(guildId, serverId, gid)] else [])
            && (session != null ==>
                 session.groupSyncTimeouts == ReportStep(old(session.groupSyncTimeouts), guildId, serverId, gid, sw,
                                                         action, session.serverId == serverId))
  {
    var server := client.instances[guildId].serverList[serverId];
    var action := SyncActionFor(WithSyncDefaults(server.switchGroups[gid]), sw, SwitchActive(server, sw));
    if action == Cancel {
      ClearGroupSyncTimeouts(session, gid, Some(sw));
    } else if action == Schedule {
      ScheduleGroupSyncRevert(client, session, guildId, serverId, gid, sw);
    }
    if action != Untouched {
      client.outbox := client.outbox + [SmartSwitchGroupMessage(guildId, serverId, gid)];
    }
  }

  /** The loop of the report: every group of the server in order, returning whether some
      group bootstrapped a target. */
  method ReportToGroups(client: Client, session: Session?, guildId: GuildId, serverId: ServerId, sw: SwitchId)
    returns (updated: bool)
    requires guildId in client.instances && serverId in client.instances[guildId].serverList
    requires client.instances[guildId].serverList[serverId].WellOrdered()
    modifies client`outbox, AsFrame(session)`groupSyncTimeouts
    ensures var server := client.instances[guildId].serverList[serverId];
            && updated == AnyBootstrap(server, sw)
            && client.outbox == old(client.outbox) + ReportMessages(guildId, serverId, server, server.groupOrder, sw)
            && (session != null ==>
                 session.groupSyncTimeouts == ReportTable(old(session.groupSyncTimeouts), guildId, serverId, server,
                                                          server.groupOrder, sw, session.serverId == serverId))
  {
    var server := client.instances[guildId].serverList[serverId];
    var order := server.groupOrder;
    updated := false;
    var i := 0;
    while i < |order|
      invariant 0 <= i <= |order|
      invariant updated == BootstrapsIn(server, order[..i], sw)
      invariant client.outbox == old(client.outbox) + ReportMessages(guildId, serverId, server, order[..i], sw)
      invariant session != null ==>
        session.groupSyncTimeouts == ReportTable(old(session.groupSyncTimeouts), guildId, serverId, server,
                                                 order[..i], sw, session.serverId == serverId)
    {
      var gid := order[i];
      assert order[..i + 1][..i] == order[..i];
      if Bootstraps(WithSyncDefaults(server.switchGroups[gid]), sw, SwitchActive(server, sw)) {
        updated := true;
      }
      ReportToGroup(client, session, guildId, serverId, gid, sw);
      i := i + 1;
    }
    assert order[..i] == order;
    BootstrapsInExists(server, order, sw);
  }

  /** `updateSwitchGroupIfContainSwitch`: a report of switch `sw` on `serverId` visits the
      server's groups in order. The pending-revert table of the guild's session becomes
      `ReportTable` (see `ReportTablePointwise`), each group containing the switch gets a
      group message, and the document is saved (with defaults and new targets) exactly when
      some group bootstrapped a target. */
  method UpdateSwitchGroupIfContainSwitch(client: Client, guildId: GuildId, serverId: ServerId, sw: SwitchId)
    requires guildId in client.instances
    requires serverId in client.instances[guildId].serverList
    requires client.instances[guildId].serverList[serverId].WellOrdered()
    modifies client`instances, client`outbox, SessionFrame(client, guildId)`groupSyncTimeouts
    ensures var server := old(client.instances[guildId].serverList[serverId]);
            client.instances == (if AnyBootstrap(server, sw)
              then old(client.instances)[guildId := SetServer(old(client.instances[guildId]), serverId, ReportedServer(server, sw))]
              else old(client.instances))
    ensures var server := old(client.instances[guildId].serverList[serverId]);
            client.outbox == old(client.outbox) + ReportMessages(guildId, serverId, server, server.groupOrder, sw)
    ensures var s := CurrentSession(client, guildId);
            var server := old(client.instances[guildId].serverList[serverId]);
            s != null ==>
              s.groupSyncTimeouts == ReportTable(old(s.groupSyncTimeouts), guildId, serverId, server,
                                                 server.groupOrder, sw, s.serverId == serverId)
  {
    var inst := client.instances[guildId];
    var server := inst.serverList[serverId];
    var session: Session? := CurrentSession(client, guildId);
    var updated := ReportToGroups(client, session, guildId, serverId, sw);
    if updated {
      client.instances := client.instances[guildId := SetServer(inst, serverId, ReportedServer(server, sw))];
    }
  }

  // ---------------------------------------------------------------------------------
  // Groups of a list of switches

  /** Some switch of `switches` belongs to group `gid`. */
  predicate HasListedSwitch(server: Server, gid: GroupId, switches: seq<SwitchId>)
    requires gid in server.switchGroups
  {
    exists k :: 0 <= k < |switches| && switches[k] in server.switchGroups[gid].switches
  }

  /** `getGroupsFromSwitchList`: the groups containing at least one of the listed switches,
      each once. */
  method GetGroupsFromSwitchList(client: Client, guildId: GuildId, serverId: ServerId, switches: seq<SwitchId>)
    returns (groups: seq<GroupId>)
    requires guildId in client.instances && serverId in client.instances[guildId].serverList
    requires client.instances[guildId].serverList[serverId].WellOrdered()
    ensures var server := client.instances[guildId].serverList[serverId];
            && (forall i, j :: 0 <= i < j < |groups| ==> groups[i] != groups[j])
            && (forall gid :: gid in groups <==> gid in server.switchGroups && HasListedSwitch(server, gid, switches))
  {
    var server := client.instances[guildId].serverList[serverId];
    var order := server.groupOrder;
    groups := [];
    var i := 0;
    while i < |switches|
      invariant 0 <= i <= |switches|
      invariant forall a, b :: 0 <= a < b < |groups| ==> groups[a] != groups[b]
      invariant forall gid :: gid in groups ==> gid in server.switchGroups && HasListedSwitch(server, gid, switches)
      invariant forall gid, k :: gid in server.switchGroups && 0 <= k < i && switches[k] in server.switchGroups[gid].switches
                                 ==> gid in groups
    {
      var entity := switches[i];
      var j := 0;
      while j < |order|
        invariant 0 <= j <= |order|
        invariant forall a, b :: 0 <= a < b < |groups| ==> groups[a] != groups[b]
        invariant forall gid :: gid in groups ==> gid in server.switchGroups && HasListedSwitch(server, gid, switches)
        invariant forall gid, k :: gid in server.switchGroups && 0 <= k < i && switches[k] in server.switchGroups[gid].switches
                                   ==> gid in groups
        invariant forall gid :: gid in order[..j] && entity in server.switchGroups[gid].switches ==> gid in groups
      {
        var gid := order[j];
        if entity in server.switchGroups[gid].switches && gid !in groups {
          groups := groups + [gid];
        }
        assert order[..j + 1] == order[..j] + [gid];
        j := j + 1;
      }
      assert order[..j] == order;
      i := i + 1;
    }
  }

  // ---------------------------------------------------------------------------------
  // Turning a group on or off

  /** The members of the group that have to be switched, in the server's switch order:
      those whose `active` flag differs from the requested value. */
  function ActionSwitches(switches: map<SwitchId, SmartSwitch>, members: seq<SwitchId>, value: bool, order: seq<SwitchId>)
    : (r: seq<SwitchId>)
    requires forall id :: id in order ==> id in switches
    ensures forall id :: id in r ==> id in order && id in members
  {
    if order == [] then []
    else
      var id := order[|order| - 1];
      ActionSwitches(switches, members, value, order[..|order| - 1])
      + (if id in members && switches[id].active != value then [id] else [])
  }

  /** Exactly the members away from the requested value are switched, each once. */
  lemma {:induction false} ActionSwitchesExactly(switches: map<SwitchId, SmartSwitch>, members: seq<SwitchId>,
                                                 value: bool, order: seq<SwitchId>)
    requires forall id :: id in order ==> id in switches
    requires NoDuplicates(order)
    ensures NoDuplicates(ActionSwitches(switches, members, value, order))
    ensures forall id :: id in ActionSwitches(switches, members, value, order) <==>
      id in order && id in members && switches[id].active != value
  {
    if order != [] {
      var init := order[..|order| - 1];
      var id := order[|order| - 1];
      ActionSwitchesExactly(switches, members, value, init);
      assert forall x :: x in order <==> x in init || x == id;
      assert id !in init;
    }
  }

  lemma {:induction false} ActionSwitchesNoDuplicates(switches: map<SwitchId, SmartSwitch>, members: seq<SwitchId>,
                                                      value: bool, order: seq<SwitchId>)
    requires forall id :: id in order ==> id in switches
    requires NoDuplicates(order)
    ensures NoDuplicates(ActionSwitches(switches, members, value, order))
  {
    ActionSwitchesExactly(switches, members, value, order);
  }

  /** The switch after one actuation: on a valid response it is at the requested value and
      reachable; on an invalid one it keeps its `active` flag and becomes unreachable. */
  function ActuatedSwitch(sw: SmartSwitch, value: bool, valid: bool): SmartSwitch {
    if valid then sw.(active := value, reachable := true) else sw.(reachable := false)
  }

  /** The server after actuating switch `id` for group `groupId`: the switch as above, and
      on a valid response a sync-enabled group records `value` as the switch's target. */
  function Actuated(server: Server, groupId: GroupId, id: SwitchId, value: bool, valid: bool): (r: Server)
    requires id in server.switches && groupId in server.switchGroups
    ensures r.switches.Keys == server.switches.Keys && r.switchGroups.Keys == server.switchGroups.Keys
    ensures r.switchOrder == server.switchOrder && r.groupOrder == server.groupOrder
  {
    var g := server.switchGroups[groupId];
    var switched := server.(switches := server.switches[id := ActuatedSwitch(server.switches[id], value, valid)]);
    if valid && SyncEnabled(g) then
      switched.(switchGroups := server.switchGroups[groupId := g.(syncState := Some(SyncState(g)[id := value]))])
    else switched
  }

  /** The server after actuating every switch of `ids` in turn, with `valid` the validity of
      each switch's response. */
  function ActuatedAll(server: Server, groupId: GroupId, ids: seq<SwitchId>, value: bool, valid: set<SwitchId>)
    : (r: Server)
    requires forall id :: id in ids ==> id in server.switches
    requires groupId in server.switchGroups
    ensures r.switches.Keys == server.switches.Keys && r.switchGroups.Keys == server.switchGroups.Keys
    ensures r.switchOrder == server.switchOrder && r.groupOrder == server.groupOrder
  {
    if ids == [] then server
    else
      var id := ids[|ids| - 1];
      Actuated(ActuatedAll(server, groupId, ids[..|ids| - 1], value, valid), groupId, id, value, id in valid)
  }

  /** Switch by switch, a batch actuation is the actuation of each listed switch once. */
  lemma {:induction false} ActuatedAllSwitches(server: Server, groupId: GroupId, ids: seq<SwitchId>, value: bool,
                                               valid: set<SwitchId>)
    requires forall id :: id in ids ==> id in server.switches
    requires groupId in server.switchGroups
    requires NoDuplicates(ids)
    ensures var r := ActuatedAll(server, groupId, ids, value, valid);
            && (forall id :: id in server.switches ==>
                  r.switches[id] == if id in ids then ActuatedSwitch(server.switches[id], value, id in valid)
                                    else server.switches[id])
  {
    if ids != [] {
      var init := ids[..|ids| - 1];
      ActuatedAllSwitches(server, groupId, init, value, valid);
      assert forall x :: x in ids <==> x in init || x == ids[|ids| - 1];
    }
  }

  lemma {:induction false} ActuatedAllUntouched(server: Server, groupId: GroupId, ids: seq<SwitchId>, value: bool,
                                                valid: set<SwitchId>, id: SwitchId)
    requires forall x :: x in ids ==> x in server.switches
    requires groupId in server.switchGroups && id in server.switches && id !in ids
    ensures ActuatedAll(server, groupId, ids, value, valid).switches[id] == server.switches[id]
  {
    if ids != [] {
      ActuatedAllUntouched(server, groupId, ids[..|ids| - 1], value, valid, id);
    }
  }

  /** The targets a batch actuation declares: with sync on, every switch whose response was
      valid gets the requested value as its target and the other targets are kept; with
      sync off nothing is declared. */
  lemma {:induction false} ActuatedAllTargets(server: Server, groupId: GroupId, ids: seq<SwitchId>, value: bool,
                                              valid: set<SwitchId>)
    requires forall id :: id in ids ==> id in server.switches
    requires groupId in server.switchGroups
    ensures var g := server.switchGroups[groupId];
            var r := ActuatedAll(server, groupId, ids, value, valid).switchGroups[groupId];
            && (!SyncEnabled(g) ==> r == g)
            && (SyncEnabled(g) ==> forall x ::
                  && (x in SyncState(r) <==> x in SyncState(g) || (x in ids && x in valid))
                  && (x in SyncState(r) ==>
                        SyncState(r)[x] == if x in ids && x in valid then value else SyncState(g)[x]))
  {
    if ids != [] {
      var init := ids[..|ids| - 1];
      var last := ids[|ids| - 1];
      ActuatedAllTargets(server, groupId, init, value, valid);
      ActuatedAllSyncEnabled(server, groupId, init, value, valid);
      assert forall x :: x in ids <==> x in init || x == last;
      var g := server.switchGroups[groupId];
      var prev := ActuatedAll(server, groupId, init, value, valid).switchGroups[groupId];
      var r := ActuatedAll(server, groupId, ids, value, valid).switchGroups[groupId];
      if SyncEnabled(g) && last in valid {
        assert SyncState(r) == SyncState(prev)[last := value];
      } else {
        assert r == prev;
      }
    }
  }

  /** A batch actuation keeps the group's members and sync switch, and every other group. */
  lemma {:induction false} ActuatedAllSyncEnabled(server: Server, groupId: GroupId, ids: seq<SwitchId>, value: bool,
                                                  valid: set<SwitchId>)
    requires forall id :: id in ids ==> id in server.switches
    requires groupId in server.switchGroups
    ensures ActuatedAll(server, groupId, ids, value, valid).switchGroups[groupId].syncEnabled
         == server.switchGroups[groupId].syncEnabled
    ensures ActuatedAll(server, groupId, ids, value, valid).switchGroups[groupId].switches
         == server.switchGroups[groupId].switches
    ensures forall gid :: gid in server.switchGroups && gid != groupId ==>
      ActuatedAll(server, groupId, ids, value, valid).switchGroups[gid] == server.switchGroups[gid]
  {
    if ids != [] {
      ActuatedAllSyncEnabled(server, groupId, ids[..|ids| - 1], value, valid);
    }
  }

  /** What actuating the switches of `ids` sends, in order: per switch the remote call, a
      "not found" message when the response is invalid and the switch was reachable, and the
      switch message. */
  function ActuationEvents(guildId: GuildId, serverId: ServerId, switches: map<SwitchId, SmartSwitch>, ids: seq<SwitchId>,
                           value: bool, valid: set<SwitchId>): seq<Event>
    requires forall id :: id in ids ==> id in switches
  {
    if ids == [] then []
    else
      var id := ids[|ids| - 1];
      ActuationEvents(guildId, serverId, switches, ids[..|ids| - 1], value, valid)
      + SwitchEvents(guildId, serverId, id, value, id in valid, switches[id].reachable)
  }

  /** What actuating one switch sends: the remote call, a "not found" message when the
      response is invalid and the switch was reachable, and the switch message. */
  function SwitchEvents(guildId: GuildId, serverId: ServerId, id: SwitchId, value: bool, valid: bool, wasReachable: bool)
    : seq<Event>
  {
    [TurnSmartSwitch(guildId, id, value)]
    + (if !valid && wasReachable then [SmartSwitchNotFoundMessage(guildId, serverId, id)] else [])
    + [SmartSwitchMessage(guildId, serverId, id)]
  }

  /** The session's interaction list after the actuations: each switch is recorded before
      its call and filtered out again when the response is invalid. */
  function Interactions(l: seq<SwitchId>, ids: seq<SwitchId>, valid: set<SwitchId>): seq<SwitchId> {
    if ids == [] then l
    else
      var id := ids[|ids| - 1];
      var pushed := Interactions(l, ids[..|ids| - 1], valid) + [id];
      if id in valid then pushed else Without(pushed, id)
  }

  /** After the actuations a turned switch is in the interaction list exactly when its
      response was valid; the list is otherwise as before. */
  lemma {:induction false} InteractionsMembership(l: seq<SwitchId>, ids: seq<SwitchId>, valid: set<SwitchId>)
    ensures forall id :: id in ids ==> (id in Interactions(l, ids, valid) <==> id in valid)
    ensures forall id :: id !in ids ==> (id in Interactions(l, ids, valid) <==> id in l)
  {
    if ids != [] {
      InteractionsMembership(l, ids[..|ids| - 1], valid);
      assert forall x :: x in ids <==> x in ids[..|ids| - 1] || x == ids[|ids| - 1];
    }
  }

  /** The pending-revert keys of the members of group `groupId` among `order`. */
  function MemberKeys(groupId: GroupId, members: seq<SwitchId>, order: seq<SwitchId>): set<string> {
    set id | id in order && id in members :: TimeoutKey(groupId, id)
  }

  function MemberIds(members: seq<SwitchId>, order: seq<SwitchId>): set<string> {
    set id | id in order && id in members
  }

  lemma MemberSetsStep(groupId: GroupId, members: seq<SwitchId>, visited: seq<SwitchId>, id: SwitchId)
    ensures id in members ==>
      && MemberKeys(groupId, members, visited + [id]) == MemberKeys(groupId, members, visited) + {TimeoutKey(groupId, id)}
      && MemberIds(members, visited + [id]) == MemberIds(members, visited) + {id}
    ensures id !in members ==>
      && MemberKeys(groupId, members, visited + [id]) == MemberKeys(groupId, members, visited)
      && MemberIds(members, visited + [id]) == MemberIds(members, visited)
  {
    assert forall x :: x in visited + [id] <==> x in visited || x == id;
  }

  /** One member of the first loop: its pending revert in this group and its deferred
      toggle are cancelled. */
  method CancelMemberTimer(session: Session, groupId: GroupId, id: SwitchId)
    modifies session`groupSyncTimeouts, session`currentSwitchTimeouts
    ensures session.groupSyncTimeouts == old(session.groupSyncTimeouts) - {TimeoutKey(groupId, id)}
    ensures session.currentSwitchTimeouts == old(session.currentSwitchTimeouts) - {id}
  {
    ClearGroupSyncTimeouts(session, groupId, Some(id));
    if id in session.currentSwitchTimeouts {
      session.currentSwitchTimeouts := session.currentSwitchTimeouts - {id};
    }
  }

  lemma MapMinusStep<K, V>(t: map<K, V>, a: set<K>, k: K)
    ensures t - a - {k} == t - (a + {k})
  {
  }

  /** One more switch of the order adds it to the actions when it is a member away from
      `value`. */
  lemma ActionSwitchesNext(switches: map<SwitchId, SmartSwitch>, members: seq<SwitchId>, value: bool,
                           order: seq<SwitchId>, i: nat)
    requires forall id :: id in order ==> id in switches
    requires i < |order|
    ensures forall id :: id in order[..i + 1] ==> id in switches
    ensures ActionSwitches(switches, members, value, order[..i + 1])
            == ActionSwitches(switches, members, value, order[..i])
               + (if order[i] in members && switches[order[i]].active != value then [order[i]] else [])
  {
    assert order[..i + 1][..i] == order[..i];
  }

  /** First loop of `TurnOnOffGroup`: for every member switch the server knows, cancel its
      pending revert in this group and its deferred toggle; collect the switches to turn. */
  method CancelMemberTimers(session: Session, server: Server, groupId: GroupId, members: seq<SwitchId>, value: bool)
    returns (actions: seq<SwitchId>)
    requires forall id :: id in server.switchOrder ==> id in server.switches
    modifies session`groupSyncTimeouts, session`currentSwitchTimeouts
    ensures actions == ActionSwitches(server.switches, members, value, server.switchOrder)
    ensures session.groupSyncTimeouts == old(session.groupSyncTimeouts) - MemberKeys(groupId, members, server.switchOrder)
    ensures session.currentSwitchTimeouts == old(session.currentSwitchTimeouts) - MemberIds(members, server.switchOrder)
  {
    var order := server.switchOrder;
    actions := [];
    var i := 0;
    while i < |order|
      invariant 0 <= i <= |order|
      invariant actions == ActionSwitches(server.switches, members, value, order[..i])
      invariant session.groupSyncTimeouts == old(session.groupSyncTimeouts) - MemberKeys(groupId, members, order[..i])
      invariant session.currentSwitchTimeouts == old(session.currentSwitchTimeouts) - MemberIds(members, order[..i])
    {
      var id := order[i];
      TakeNext(order, i);
      MemberSetsStep(groupId, members, order[..i], id);
      ActionSwitchesNext(server.switches, members, value, order, i);
      if id in members {
        CancelMemberTimer(session, groupId, id);
        MapMinusStep(old(session.groupSyncTimeouts), MemberKeys(groupId, members, order[..i]), TimeoutKey(groupId, id));
        MapMinusStep(old(session.currentSwitchTimeouts), MemberIds(members, order[..i]), id);
        if server.switches[id].active != value {
          actions := actions + [id];
        }
      }
      i := i + 1;
    }
    assert order[..i] == order;
  }

  /** One switch of the second loop of `TurnOnOffGroup`: set to `value` in the local copy,
      recorded as an interaction, turned remotely, then settled by the response (a "not
      found" message if it was reachable and the response is invalid), and announced. */
  method ActuateSwitch(client: Client, session: Session, guildId: GuildId, serverId: ServerId,
                       srv: Server, groupId: GroupId, id: SwitchId, value: bool, valid: bool)
    returns (after: Server)
    requires id in srv.switches && groupId in srv.switchGroups
    modifies client`outbox, session`interactionSwitches
    ensures after == Actuated(srv, groupId, id, value, valid)
    ensures client.outbox == old(client.outbox) + SwitchEvents(guildId, serverId, id, value, valid, srv.switches[id].reachable)
    ensures session.interactionSwitches ==
      (if valid then old(session.interactionSwitches) + [id] else Without(old(session.interactionSwitches) + [id], id))
  {
    var sw := srv.switches[id];
    var prevActive := sw.active;
    sw := sw.(active := value);
    session.interactionSwitches := session.interactionSwitches + [id];
    client.outbox := client.outbox + [TurnSmartSwitch(guildId, id, value)];
    if !valid {
      if sw.reachable {
        client.outbox := client.outbox + [SmartSwitchNotFoundMessage(guildId, serverId, id)];
      }
      sw := sw.(reachable := false, active := prevActive);
      after := srv.(switches := srv.switches[id := sw]);
      session.interactionSwitches := Without(session.interactionSwitches, id);
    } else {
      sw := sw.(reachable := true);
      after := srv.(switches := srv.switches[id := sw]);
      var g := after.switchGroups[groupId];
      if SyncEnabled(g) {
        after := after.(switchGroups := after.switchGroups[groupId := g.(syncState := Some(SyncState(g)[id := value]))]);
      }
    }
    client.outbox := client.outbox + [SmartSwitchMessage(guildId, serverId, id)];
  }

  /** The folds of the second loop, one switch further. */
  lemma ActuationStep(guildId: GuildId, serverId: ServerId, server: Server, groupId: GroupId, done: seq<SwitchId>,
                      id: SwitchId, value: bool, valid: set<SwitchId>, l: seq<SwitchId>)
    requires groupId in server.switchGroups && id in server.switches
    requires forall x :: x in done ==> x in server.switches
    ensures forall x :: x in done + [id] ==> x in server.switches
    ensures && ActuationEvents(guildId, serverId, server.switches, done + [id], value, valid)
               == ActuationEvents(guildId, serverId, server.switches, done, value, valid)
                  + SwitchEvents(guildId, serverId, id, value, id in valid, server.switches[id].reachable)
            && Interactions(l, done + [id], valid)
               == (if id in valid then Interactions(l, done, valid) + [id]
                   else Without(Interactions(l, done, valid) + [id], id))
            && ActuatedAll(server, groupId, done + [id], value, valid)
               == Actuated(ActuatedAll(server, groupId, done, value, valid), groupId, id, value, id in valid)
  {
    assert (done + [id])[..|done|] == done;
  }

  /** The invariant of the second loop survives one more switch. */
  lemma ActuationPreserved(guildId: GuildId, serverId: ServerId, server: Server, groupId: GroupId, done: seq<SwitchId>,
                           id: SwitchId, value: bool, valid: set<SwitchId>, out: seq<Event>, list: seq<SwitchId>,
                           srv0: Server, out0: seq<Event>, list0: seq<SwitchId>,
                           srv1: Server, out1: seq<Event>, list1: seq<SwitchId>)
    requires groupId in server.switchGroups && id in server.switches && id !in done
    requires forall x :: x in done ==> x in server.switches
    requires srv0 == ActuatedAll(server, groupId, done, value, valid)
    requires out0 == out + ActuationEvents(guildId, serverId, server.switches, done, value, valid)
    requires list0 == Interactions(list, done, valid)
    requires srv1 == Actuated(srv0, groupId, id, value, id in valid)
    requires out1 == out0 + SwitchEvents(guildId, serverId, id, value, id in valid, srv0.switches[id].reachable)
    requires list1 == (if id in valid then list0 + [id] else Without(list0 + [id], id))
    ensures forall x :: x in done + [id] ==> x in server.switches
    ensures srv1 == ActuatedAll(server, groupId, done + [id], value, valid)
    ensures out1 == out + ActuationEvents(guildId, serverId, server.switches, done + [id], value, valid)
    ensures list1 == Interactions(list, done + [id], valid)
  {
    ActuatedAllUntouched(server, groupId, done, value, valid, id);
    ActuationStep(guildId, serverId, server, groupId, done, id, value, valid, list);
    AppendAssoc(out, ActuationEvents(guildId, serverId, server.switches, done, value, valid),
                SwitchEvents(guildId, serverId, id, value, id in valid, server.switches[id].reachable));
  }

  lemma NotInPrefix<T>(s: seq<T>, i: nat)
    requires NoDuplicates(s) && i < |s|
    ensures s[i] !in s[..i]
  {
  }

  /** Second loop of `TurnOnOffGroup`: every switch of `actions` in turn, on the local copy
      `server` of the server; returns the copy as the loop leaves it. */
  method ActuateSwitches(client: Client, session: Session, guildId: GuildId, serverId: ServerId, server: Server,
                         groupId: GroupId, actions: seq<SwitchId>, value: bool, valid: set<SwitchId>)
    returns (srv: Server)
    requires groupId in server.switchGroups
    requires forall id :: id in actions ==> id in server.switches
    requires NoDuplicates(actions)
    modifies client`outbox, session`interactionSwitches
    ensures srv == ActuatedAll(server, groupId, actions, value, valid)
    ensures client.outbox == old(client.outbox) + ActuationEvents(guildId, serverId, server.switches, actions, value, valid)
    ensures session.interactionSwitches == Interactions(old(session.interactionSwitches), actions, valid)
  {
    srv := server;
    ghost var done: seq<SwitchId> := [];
    var i := 0;
    while i < |actions|
      invariant 0 <= i <= |actions| && done == actions[..i]
      invariant forall x :: x in done ==> x in server.switches
      invariant srv == ActuatedAll(server, groupId, done, value, valid)
      invariant client.outbox == old(client.outbox) + ActuationEvents(guildId, serverId, server.switches, done, value, valid)
      invariant session.interactionSwitches == Interactions(old(session.interactionSwitches), done, valid)
    {
      var id := actions[i];
      NotInPrefix(actions, i);
      ghost var srv0, out0, list0 := srv, client.outbox, session.interactionSwitches;
      srv := ActuateSwitch(client, session, guildId, serverId, srv, groupId, id, value, id in valid);
      ActuationPreserved(guildId, serverId, server, groupId, done, id, value, valid, old(client.outbox),
                         old(session.interactionSwitches), srv0, out0, list0, srv, client.outbox, session.interactionSwitches);
      TakeNext(actions, i);
      done := done + [id];
      i := i + 1;
    }
    assert actions[..i] == actions;
  }

  /** The switches `TurnOnOffGroup` turns: the group's members away from `value`. */
  function GroupActions(server: Server, groupId: GroupId, value: bool): seq<SwitchId>
    requires groupId in server.switchGroups
    requires forall id :: id in server.switchOrder ==> id in server.switches
  {
    ActionSwitches(server.switches, server.switchGroups[groupId].switches, value, server.switchOrder)
  }

  /** The server as `TurnOnOffGroup` leaves it: the group gets its defaults, then every
      switch to turn is actuated. */
  function TurnedServer(server: Server, groupId: GroupId, value: bool, valid: set<SwitchId>): Server
    requires groupId in server.switchGroups
    requires forall id :: id in server.switchOrder ==> id in server.switches
  {
    ActuatedAll(WithGroupDefaults(server, groupId), groupId, GroupActions(server, groupId, value), value, valid)
  }

  /** The server with the sync defaults applied to group `groupId`. */
  function WithGroupDefaults(server: Server, groupId: GroupId): (r: Server)
    requires groupId in server.switchGroups
    ensures r.switches == server.switches && r.switchOrder == server.switchOrder
    ensures r.switchGroups.Keys == server.switchGroups.Keys
  {
    server.(switchGroups := server.switchGroups[groupId := WithSyncDefaults(server.switchGroups[groupId])])
  }

  /** `TurnOnOffGroup(client, rustplus, guildId, serverId, groupId, value)`: cancels the
      pending reverts and deferred toggles of every member, turns the members that are away
      from `value` (`valid` gives each remote call's response validity), saves the
      document if anything was turned, and sends the group message if so. */
  method TurnOnOffGroup(client: Client, session: Session, guildId: GuildId, serverId: ServerId, groupId: GroupId,
                        value: bool, valid: set<SwitchId>)
    requires guildId in client.instances && serverId in client.instances[guildId].serverList
    requires groupId in client.instances[guildId].serverList[serverId].switchGroups
    requires client.instances[guildId].serverList[serverId].WellOrdered()
    modifies client`instances, client`outbox
    modifies session`groupSyncTimeouts, session`currentSwitchTimeouts, session`interactionSwitches
    ensures var inst := old(client.instances[guildId]);
            var server := inst.serverList[serverId];
            var actions := GroupActions(server, groupId, value);
            var members := server.switchGroups[groupId].switches;
            && client.instances == (if actions == [] then old(client.instances)
                 else old(client.instances)[guildId := SetServer(inst, serverId, TurnedServer(server, groupId, value, valid))])
            && client.outbox == old(client.outbox) + ActuationEvents(guildId, serverId, server.switches, actions, value, valid)
                 + (if actions == [] then [] else [SmartSwitchGroupMessage(guildId, serverId, groupId)])
            && session.groupSyncTimeouts == old(session.groupSyncTimeouts) - MemberKeys(groupId, members, server.switchOrder)
            && session.currentSwitchTimeouts == old(session.currentSwitchTimeouts) - MemberIds(members, server.switchOrder)
            && session.interactionSwitches == Interactions(old(session.interactionSwitches), actions, valid)
    ensures StateOf(client, session) == TurnedState(old(StateOf(client, session)), guildId, serverId, groupId, value, valid)
  {
    var inst := client.instances[guildId];
    var server := inst.serverList[serverId];
    var ensured := EnsureGroupSyncDefaults(inst, serverId, groupId);
    var group := ensured.group.value;
    var eServer := ensured.instance.serverList[serverId];
    assert eServer == WithGroupDefaults(server, groupId);
    var actions := CancelMemberTimers(session, eServer, groupId, group.switches, value);
    ActionSwitchesNoDuplicates(server.switches, group.switches, value, server.switchOrder);
    var turned := ActuateSwitches(client, session, guildId, serverId, eServer, groupId, actions, value, valid);
    if actions != [] {
      client.instances := client.instances[guildId := SetServer(inst, serverId, turned)];
      client.outbox := client.outbox + [SmartSwitchGroupMessage(guildId, serverId, groupId)];
    }
  }

  /** Turning a group again right after turning it only touches the switches whose remote
      call failed; when every call succeeded a second identical command turns nothing. */
  lemma {:induction false} TurnOnOffGroupConverges(server: Server, groupId: GroupId, value: bool, valid: set<SwitchId>)
    requires server.WellOrdered() && groupId in server.switchGroups
    ensures var after := TurnedServer(server, groupId, value, valid);
            forall id :: id in GroupActions(after, groupId, value) ==>
              id in GroupActions(server, groupId, value) && id !in valid
    ensures (forall id :: id in GroupActions(server, groupId, value) ==> id in valid) ==>
      GroupActions(TurnedServer(server, groupId, value, valid), groupId, value) == []
  {
    var ensured := WithGroupDefaults(server, groupId);
    var actions := GroupActions(server, groupId, value);
    var members := server.switchGroups[groupId].switches;
    var after := TurnedServer(server, groupId, value, valid);
    ActionSwitchesExactly(server.switches, members, value, server.switchOrder);
    ActuatedAllSwitches(ensured, groupId, actions, value, valid);
    ActuatedAllSyncEnabled(ensured, groupId, actions, value, valid);
    assert after.switchGroups[groupId].switches == members;
    ActionSwitchesExactly(after.switches, members, value, after.switchOrder);
    if forall id :: id in GroupActions(server, groupId, value) ==> id in valid {
      if GroupActions(after, groupId, value) != [] {
        var id := GroupActions(after, groupId, value)[0];
        assert id in GroupActions(after, groupId, value);
      }
    }
  }

  // ---------------------------------------------------------------------------------
  // The in-game group command

  /** `command` invokes group command `groupCommand` (the configured prefix included):
      it is exactly that, or that followed by a space and more. */
  predicate InvokesCommand(command: string, groupCommand: string) {
    command == groupCommand || StartsWith(command, groupCommand + " ")
  }

  /** The position in `order` of the first group whose command `command` invokes. */
  function FindGroupByCommand(server: Server, order: seq<GroupId>, prefix: string, command: string): (r: Option<nat>)
    requires forall gid :: gid in order ==> gid in server.switchGroups
    ensures r.Some? ==>
              r.value < |order| && InvokesCommand(command, prefix + server.switchGroups[order[r.value]].command)
    ensures r.Some? ==> forall j :: 0 <= j < r.value ==>
      !InvokesCommand(command, prefix + server.switchGroups[order[j]].command)
    ensures r.None? ==> forall j :: 0 <= j < |order| ==>
      !InvokesCommand(command, prefix + server.switchGroups[order[j]].command)
  {
    if order == [] then None
    else if InvokesCommand(command, prefix + server.switchGroups[order[0]].command) then Some(0)
    else
      var rest := FindGroupByCommand(server, order[1..], prefix, command);
      if rest.None? then None else Some(rest.value + 1)
  }

  /** The command words, in English and in the guild's language. */
  datatype CommandWords = CommandWords(onEn: string, onLang: string, offEn: string, offLang: string,
                                       statusEn: string, statusLang: string)

  datatype GroupCommand = TurnOn | TurnOff | ShowStatus | Unrecognised

  /** What the text after the group command asks for. "On" is tested first and "off"
      second, both as prefixes; "status" must match exactly. */
  function ClassifyGroupCommand(command: string, groupCommand: string, w: CommandWords): (r: GroupCommand)
    ensures r == TurnOn <==>
      StartsWith(command, groupCommand + " " + w.onEn) || StartsWith(command, groupCommand + " " + w.onLang)
    ensures r == TurnOff <==>
      && !StartsWith(command, groupCommand + " " + w.onEn) && !StartsWith(command, groupCommand + " " + w.onLang)
      && (StartsWith(command, groupCommand + " " + w.offEn) || StartsWith(command, groupCommand + " " + w.offLang))
    ensures r == ShowStatus <==>
      && !StartsWith(command, groupCommand + " " + w.onEn) && !StartsWith(command, groupCommand + " " + w.onLang)
      && !StartsWith(command, groupCommand + " " + w.offEn) && !StartsWith(command, groupCommand + " " + w.offLang)
      && (command == groupCommand + " " + w.statusEn || command == groupCommand + " " + w.statusLang)
    ensures r == Unrecognised <==>
      !StartsWith(command, groupCommand + " " + w.onEn) && !StartsWith(command, groupCommand + " " + w.onLang)
      && !StartsWith(command, groupCommand + " " + w.offEn) && !StartsWith(command, groupCommand + " " + w.offLang)
      && command != groupCommand + " " + w.statusEn && command != groupCommand + " " + w.statusLang
  {
    if StartsWith(command, groupCommand + " " + w.onEn) || StartsWith(command, groupCommand + " " + w.onLang) then TurnOn
    else if StartsWith(command, groupCommand + " " + w.offEn) || StartsWith(command, groupCommand + " " + w.offLang) then TurnOff
    else if command == groupCommand + " " + w.statusEn || command == groupCommand + " " + w.statusLang then ShowStatus
    else Unrecognised
  }

  /** A command word followed by anything (such as a duration) keeps its meaning: "on"
      always, "off" unless what follows the group command also starts with an "on" word. */
  lemma {:induction false} ClassifyWithSuffix(groupCommand: string, w: CommandWords, suffix: string)
    ensures ClassifyGroupCommand(groupCommand + " " + w.onEn + suffix, groupCommand, w) == TurnOn
    ensures !StartsWith(w.offEn + suffix, w.onEn) && !StartsWith(w.offEn + suffix, w.onLang) ==>
      ClassifyGroupCommand(groupCommand + " " + w.offEn + suffix, groupCommand, w) == TurnOff
  {
    var head := groupCommand + " ";
    assert head + w.onEn + suffix == head + (w.onEn + suffix);
    StartsWithAfterHead(head, w.onEn + suffix, w.onEn);
    assert (w.onEn + suffix)[..|w.onEn|] == w.onEn;
    var rest := w.offEn + suffix;
    assert head + w.offEn + suffix == head + rest;
    StartsWithAfterHead(head, rest, w.onEn);
    StartsWithAfterHead(head, rest, w.onLang);
    StartsWithAfterHead(head, rest, w.offEn);
    assert rest[..|w.offEn|] == w.offEn;
  }

  /** The words of a status line. */
  datatype StatusWords = StatusWords(onCap: string, offCap: string, notFoundCap: string, status: string)

  function StatusEntry(sw: SmartSwitch, words: StatusWords): string {
    sw.name + ": " + (if sw.reachable then (if sw.active then words.onCap else words.offCap) else words.notFoundCap)
  }

  /** The status line of a group: one entry per member in member order, or `None` when a
      member is not a known switch (the lookup of its fields fails). */
  function StatusEntries(switches: map<SwitchId, SmartSwitch>, members: seq<SwitchId>, words: StatusWords)
    : (r: Option<seq<string>>)
    ensures r.None? <==> exists k :: 0 <= k < |members| && members[k] !in switches
    ensures r.Some? ==> |r.value| == |members|
    ensures r.Some? ==> forall k :: 0 <= k < |members| ==> r.value[k] == StatusEntry(switches[members[k]], words)
  {
    if members == [] then Some([])
    else if members[0] !in switches then None
    else
      var rest := StatusEntries(switches, members[1..], words);
      if rest.None? then
        None
      else
        Some([StatusEntry(switches[members[0]], words)] + rest.value)
  }

  function StatusText(switches: map<SwitchId, SmartSwitch>, members: seq<SwitchId>, words: StatusWords)
    : Option<string>
  {
    var entries := StatusEntries(switches, members, words);
    if entries.None? then None else Some(words.status + ": " + Join(entries.value, ", "))
  }

  datatype CommandOutcome = NotHandled | Handled | Failed

  /** The deferred-toggle table after an "on"/"off" command: its old entry for the group is
      dropped and, with a duration, the opposite value is scheduled under the group id. */
  function DeferredAfterCommand(t: map<string, bool>, groupId: GroupId, active: bool, timeSeconds: Option<int>)
    : (r: map<string, bool>)
    ensures timeSeconds.None? ==> groupId !in r
    ensures timeSeconds.Some? ==> groupId in r && r[groupId] == !active
    ensures forall k :: k != groupId ==> (k in r <==> k in t) && (k in r ==> r[k] == t[k])
  {
    if timeSeconds.None? then t - {groupId} else (t - {groupId})[groupId := !active]
  }

  /** The parts of the bot and of one session that turning a group changes. */
  datatype GroupState = GroupState(instances: map<GuildId, Instance>, outbox: seq<Event>,
                                   groupSyncTimeouts: map<string, PendingRevert>,
                                   currentSwitchTimeouts: map<string, bool>, interactionSwitches: seq<SwitchId>)

  function StateOf(client: Client, session: Session): GroupState
    reads client, session
  {
    GroupState(client.instances, client.outbox, session.groupSyncTimeouts, session.currentSwitchTimeouts,
               session.interactionSwitches)
  }

  /** The state after `TurnOnOffGroup` from state `st`. */
  function TurnedState(st: GroupState, guildId: GuildId, serverId: ServerId, groupId: GroupId, value: bool,
                       valid: set<SwitchId>): GroupState
    requires guildId in st.instances && serverId in st.instances[guildId].serverList
    requires groupId in st.instances[guildId].serverList[serverId].switchGroups
    requires st.instances[guildId].serverList[serverId].WellOrdered()
  {
    var inst := st.instances[guildId];
    var server := inst.serverList[serverId];
    var actions := GroupActions(server, groupId, value);
    var members := server.switchGroups[groupId].switches;
    GroupState(
      if actions == [] then st.instances
      else st.instances[guildId := SetServer(inst, serverId, TurnedServer(server, groupId, value, valid))],
      st.outbox + ActuationEvents(guildId, serverId, server.switches, actions, value, valid)
        + (if actions == [] then [] else [SmartSwitchGroupMessage(guildId, serverId, groupId)]),
      st.groupSyncTimeouts - MemberKeys(groupId, members, server.switchOrder),
      st.currentSwitchTimeouts - MemberIds(members, server.switchOrder),
      Interactions(st.interactionSwitches, actions, valid))
  }

  /** The "on"/"off" branch of the group command: the group's deferred toggle is replaced
      (by the opposite value when a duration is given), the command is announced in game,
      and the group is turned. */
  method ToggleGroupByCommand(client: Client, session: Session, groupId: GroupId, active: bool,
                              timeSeconds: Option<int>, valid: set<SwitchId>)
    requires session.guildId in client.instances && session.serverId in client.instances[session.guildId].serverList
    requires groupId in client.instances[session.guildId].serverList[session.serverId].switchGroups
    requires client.instances[session.guildId].serverList[session.serverId].WellOrdered()
    modifies client`instances, client`outbox
    modifies session`groupSyncTimeouts, session`currentSwitchTimeouts, session`interactionSwitches
    ensures var group := old(client.instances[session.guildId].serverList[session.serverId].switchGroups[groupId]);
            var announced := old(StateOf(client, session)).(
              outbox := old(client.outbox) + [GroupToggleAnnounced(session.guildId, group.name, active, timeSeconds)],
              currentSwitchTimeouts := DeferredAfterCommand(old(session.currentSwitchTimeouts), groupId, active, timeSeconds));
            StateOf(client, session) == TurnedState(announced, session.guildId, session.serverId, groupId, active, valid)
  {
    var group := client.instances[session.guildId].serverList[session.serverId].switchGroups[groupId];
    session.currentSwitchTimeouts := DeferredAfterCommand(session.currentSwitchTimeouts, groupId, active, timeSeconds);
    client.outbox := client.outbox + [GroupToggleAnnounced(session.guildId, group.name, active, timeSeconds)];
    TurnOnOffGroup(client, session, session.guildId, session.serverId, groupId, active, valid);
  }

  /** `smartSwitchGroupCommandHandler(rustplus, client, command)` for the session's guild and
      server. `timeSeconds` is what the duration parser makes of the rest of the command
      (`None` for null) and `valid` the set of switches whose remote call succeeds. The
      first group (in key order) whose command is invoked is chosen; without one, or when
      its id is the empty string, the command is not handled. "On"/"off" go through
      `ToggleGroupByCommand`; "status" sends the status line, or fails when a member is not
      a known switch; anything else is handled without effect. */
  method SmartSwitchGroupCommandHandler(client: Client, session: Session, command: string, prefix: string,
                                        w: CommandWords, words: StatusWords, timeSeconds: Option<int>,
                                        valid: set<SwitchId>)
    returns (outcome: CommandOutcome)
    requires session.guildId in client.instances && session.serverId in client.instances[session.guildId].serverList
    requires client.instances[session.guildId].serverList[session.serverId].WellOrdered()
    modifies client`instances, client`outbox
    modifies session`groupSyncTimeouts, session`currentSwitchTimeouts, session`interactionSwitches
    ensures var server := old(client.instances[session.guildId].serverList[session.serverId]);
            var found := FindGroupByCommand(server, server.groupOrder, prefix, command);
            var groupId := if found.Some? then server.groupOrder[found.value] else [];
            var group := if found.Some? then server.switchGroups[groupId] else SwitchGroup([], [], [], None, None, None);
            var kind := ClassifyGroupCommand(command, prefix + group.command, w);
            var text := StatusText(server.switches, group.switches, words);
            && (outcome == NotHandled <==> groupId == [])
            && (outcome == Failed <==> groupId != [] && kind == ShowStatus && text.None?)
            && (groupId == [] || kind == Unrecognised || (kind == ShowStatus && text.None?) ==>
                  StateOf(client, session) == old(StateOf(client, session)))
            && (groupId != [] && kind == ShowStatus && text.Some? ==>
                  StateOf(client, session) == old(StateOf(client, session)).(
                    outbox := old(client.outbox) + [InGameMessage(session.guildId, text.value)]))
            && (groupId != [] && (kind == TurnOn || kind == TurnOff) ==>
                  var announced := old(StateOf(client, session)).(
                    outbox := old(client.outbox) + [GroupToggleAnnounced(session.guildId, group.name, kind == TurnOn, timeSeconds)],
                    currentSwitchTimeouts := DeferredAfterCommand(old(session.currentSwitchTimeouts), groupId, kind == TurnOn, timeSeconds));
                  StateOf(client, session)
                    == TurnedState(announced, session.guildId, session.serverId, groupId, kind == TurnOn, valid))
  {
    var server := client.instances[session.guildId].serverList[session.serverId];
    var found := FindGroupByCommand(server, server.groupOrder, prefix, command);
    if found.None? || server.groupOrder[found.value] == [] {
      return NotHandled;
    }
    var groupId := server.groupOrder[found.value];
    var group := server.switchGroups[groupId];
    var kind := ClassifyGroupCommand(command, prefix + group.command, w);
    if kind == Unrecognised {
      return Handled;
    }
    if kind == ShowStatus {
      var text := StatusText(server.switches, group.switches, words);
      if text.None? {
        return Failed;
      }
      client.outbox := client.outbox + [InGameMessage(session.guildId, text.value)];
      return Handled;
    }
    ToggleGroupByCommand(client, session, groupId, kind == TurnOn, timeSeconds, valid);
    return Handled;
  }

  /** The deferred toggle stored under `groupId` in `owner`'s table fires: the entry is spent;
      if the server and the group still exist the revert is announced and the group is
      turned to the stored value through the session that scheduled it. */
  method FireDeferredGroupToggle(client: Client, owner: Session, groupId: GroupId, valid: set<SwitchId>)
    requires groupId in owner.currentSwitchTimeouts
    requires owner.guildId in client.instances && client.instances[owner.guildId].WellOrdered()
    modifies client`instances, client`outbox
    modifies owner`groupSyncTimeouts, owner`currentSwitchTimeouts, owner`interactionSwitches
    ensures var inst := old(client.instances[owner.guildId]);
            var spent := old(StateOf(client, owner)).(
              currentSwitchTimeouts := old(owner.currentSwitchTimeouts) - {groupId});
            && (!(owner.serverId in inst.serverList && groupId in inst.serverList[owner.serverId].switchGroups) ==>
                  StateOf(client, owner) == spent)
            && (owner.serverId in inst.serverList && groupId in inst.serverList[owner.serverId].switchGroups ==>
                  var value := old(owner.currentSwitchTimeouts[groupId]);
                  var name := inst.serverList[owner.serverId].switchGroups[groupId].name;
                  StateOf(client, owner) == TurnedState(
                    spent.(outbox := old(client.outbox) + [GroupRevertAnnounced(owner.guildId, name, value)]),
                    owner.guildId, owner.serverId, groupId, value, valid))
  {
    var value := owner.currentSwitchTimeouts[groupId];
    owner.currentSwitchTimeouts := owner.currentSwitchTimeouts - {groupId};
    var inst := client.instances[owner.guildId];
    if owner.serverId !in inst.serverList || groupId !in inst.serverList[owner.serverId].switchGroups {
      return;
    }
    var group := inst.serverList[owner.serverId].switchGroups[groupId];
    client.outbox := client.outbox + [GroupRevertAnnounced(owner.guildId, group.name, value)];
    TurnOnOffGroup(client, owner, owner.guildId, owner.serverId, groupId, value, valid);
  }
}
