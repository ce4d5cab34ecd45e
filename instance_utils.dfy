/** `getSmartDevice` of the instance utilities: which kind of smart device an entity id is,
    and on which server, searching the servers in the document's order. */
module InstanceUtils {
  import opened Common
  import opened Document

  datatype DeviceKind = Switch | Alarm | StorageMonitor

  /** `{ type, serverId }`. */
  datatype Device = Device(kind: DeviceKind, serverId: ServerId)

  /** The kind under which one server holds the id: switches are looked at first, then
      alarms, then storage monitors. */
  function KindIn(server: Server, entityId: EntityId): (r: Option<DeviceKind>)
    ensures r == Some(Switch) <==> entityId in server.switches
    ensures r == Some(Alarm) <==> entityId !in server.switches && entityId in server.alarms
    ensures r == Some(StorageMonitor) <==>
      entityId !in server.switches && entityId !in server.alarms && entityId in server.storageMonitors
    ensures r.None? <==>
      entityId !in server.switches && entityId !in server.alarms && entityId !in server.storageMonitors
  {
    if entityId in server.switches then Some(Switch)
    else if entityId in server.alarms then Some(Alarm)
    else if entityId in server.storageMonitors then Some(StorageMonitor)
    else None
  }

  /** Whether the server with this id holds the entity under any kind. */
  predicate Holds(serverList: map<ServerId, Server>, serverId: ServerId, entityId: EntityId) {
    serverId in serverList && KindIn(serverList[serverId], entityId).Some?
  }

  /** The search over the servers in `order`; `None` is the source's `null`. */
  function FindDevice(order: seq<ServerId>, serverList: map<ServerId, Server>, entityId: EntityId): Option<Device>
    decreases |order|
  {
    if order == [] then None
    else if Holds(serverList, order[0], entityId) then
      Some(Device(KindIn(serverList[order[0]], entityId).value, order[0]))
    else FindDevice(order[1..], serverList, entityId)
  }

  /** `getSmartDevice(guildId, entityId)` on the guild's document. */
  function GetSmartDevice(instance: Instance, entityId: EntityId): Option<Device> {
    FindDevice(instance.serverOrder, instance.serverList, entityId)
  }

  /** A found device is on a server that holds the id under the found kind, and no earlier
      server holds the id at all; `None` means no server in the order holds it. */
  lemma {:induction false} FindDeviceSpec(order: seq<ServerId>, serverList: map<ServerId, Server>, entityId: EntityId)
    ensures var r := FindDevice(order, serverList, entityId);
            && (r.None? <==> forall i :: 0 <= i < |order| ==> !Holds(serverList, order[i], entityId))
            && (r.Some? ==> exists i :: 0 <= i < |order| && order[i] == r.value.serverId
                              && r.value.serverId in serverList
                              && KindIn(serverList[r.value.serverId], entityId) == Some(r.value.kind)
                              && forall j :: 0 <= j < i ==> !Holds(serverList, order[j], entityId))
    decreases |order|
  {
    if order != [] && !Holds(serverList, order[0], entityId) {
      FindDeviceSpec(order[1..], serverList, entityId);
      var r := FindDevice(order, serverList, entityId);
      assert forall i :: 1 <= i < |order| ==> order[i] == order[1..][i - 1];
      if r.Some? {
        var i :| 0 <= i < |order[1..]| && order[1..][i] == r.value.serverId
                 && r.value.serverId in serverList
                 && KindIn(serverList[r.value.serverId], entityId) == Some(r.value.kind)
                 && forall j :: 0 <= j < i ==> !Holds(serverList, order[1..][j], entityId);
        assert order[i + 1] == r.value.serverId;
      }
    } else if order != [] {
      var r := FindDevice(order, serverList, entityId);
      assert order[0] == r.value.serverId;
    }
  }

  /** On a well-ordered document: the result is `null` exactly when no server holds the id
      as a switch, alarm or storage monitor, and a found server holds it under the found
      kind, with switches taking precedence over alarms and alarms over storage monitors. */
  lemma GetSmartDeviceSpec(instance: Instance, entityId: EntityId)
    requires instance.WellOrdered()
    ensures var r := GetSmartDevice(instance, entityId);
            && (r.None? <==> forall sid :: sid in instance.serverList ==> !Holds(instance.serverList, sid, entityId))
            && (r.Some? ==> && r.value.serverId in instance.serverList
                            && var server := instance.serverList[r.value.serverId];
                            && (r.value.kind == Switch <==> entityId in server.switches)
                            && (r.value.kind == Alarm ==> entityId !in server.switches && entityId in server.alarms)
                            && (r.value.kind == StorageMonitor ==>
                                  entityId !in server.switches && entityId !in server.alarms
                                  && entityId in server.storageMonitors))
  {
    FindDeviceSpec(instance.serverOrder, instance.serverList, entityId);
    var r := GetSmartDevice(instance, entityId);
    if r.None? {
      forall sid | sid in instance.serverList
        ensures !Holds(instance.serverList, sid, entityId)
      {
        var i :| 0 <= i < |instance.serverOrder| && instance.serverOrder[i] == sid;
      }
    }
  }

  /** Of two servers in a duplicate-free order that both hold the id, the later one is never
      returned. */
  lemma EarlierServerWins(order: seq<ServerId>, serverList: map<ServerId, Server>, entityId: EntityId, i: nat, j: nat)
    requires forall a, b :: 0 <= a < b < |order| ==> order[a] != order[b]
    requires i < j < |order|
    requires Holds(serverList, order[i], entityId) && Holds(serverList, order[j], entityId)
    ensures FindDevice(order, serverList, entityId).Some?
    ensures FindDevice(order, serverList, entityId).value.serverId != order[j]
  {
    FindDeviceSpec(order, serverList, entityId);
  }
}
