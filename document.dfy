/** The per-guild configuration document ("instance") as the bot stores it. Every handler
    reads it with `client.getInstance`, which hands out a fresh copy, and writes it back
    with `client.setInstance`; a value type models exactly that. JavaScript objects whose
    iteration order matters carry their key order next to the map. */
module Document {
  import opened Common

  type GuildId = string
  type ServerId = string
  type SwitchId = string
  type GroupId = string
  type EntityId = string
  type SteamId = string
  type ItemId = string

  /** `order` enumerates the keys of `m`, each once, in the object's iteration order. */
  ghost predicate KeyOrder<K(!new), V>(order: seq<K>, m: map<K, V>) {
    && (forall i, j :: 0 <= i < j < |order| ==> order[i] != order[j])
    && (forall k :: k in m <==> k in order)
  }

  datatype SmartSwitch = SmartSwitch(name: string, active: bool, reachable: bool)

  /** A switch group. The three sync fields may be missing from an older document
      (`None`); `syncState` is `None` also when it is not an object. A switch id absent
      from `syncState` means the stored value is not a boolean. */
  datatype SwitchGroup = SwitchGroup(
    name: string,
    command: string,
    switches: seq<SwitchId>,
    syncEnabled: Option<bool>,
    syncDelay: Option<int>,
    syncState: Option<map<SwitchId, bool>>)

  datatype Server = Server(
    title: string,
    switches: map<SwitchId, SmartSwitch>,
    switchOrder: seq<SwitchId>,
    switchGroups: map<GroupId, SwitchGroup>,
    groupOrder: seq<GroupId>,
    alarms: set<EntityId>,
    storageMonitors: set<EntityId>)
  {
    ghost predicate WellOrdered() {
      KeyOrder(switchOrder, switches) && KeyOrder(groupOrder, switchGroups)
    }
  }

  /** One remembered team member of a server. `lastSeenAt` is `None` for JavaScript null. */
  datatype RosterEntry = RosterEntry(steamId: SteamId, name: string, lastSeenAt: Option<int>)

  type Roster = map<SteamId, RosterEntry>

  /** Item ids a guild follows on the in-game market, per order type. */
  datatype OrderType = All | Buy | Sell

  datatype SubscriptionLists = SubscriptionLists(all: seq<ItemId>, buy: seq<ItemId>, sell: seq<ItemId>)
  {
    function Get(t: OrderType): seq<ItemId> {
      match t
      case All => all
      case Buy => buy
      case Sell => sell
    }

    function Set(t: OrderType, list: seq<ItemId>): (r: SubscriptionLists)
      ensures r.Get(t) == list
      ensures forall u :: u != t ==> r.Get(u) == Get(u)
    {
      match t
      case All => this.(all := list)
      case Buy => this.(buy := list)
      case Sell => this.(sell := list)
    }
  }

  /** Setting a list twice keeps the second value. */
  lemma SetTwice(l: SubscriptionLists, t: OrderType, a: seq<ItemId>, b: seq<ItemId>)
    ensures l.Set(t, a).Set(t, b) == l.Set(t, b)
  {
  }

  datatype Tracker = Tracker(name: string)

  datatype Instance = Instance(
    serverList: map<ServerId, Server>,
    serverOrder: seq<ServerId>,
    teamRosterHistory: Option<map<ServerId, Roster>>,
    channelTeams: Option<string>,
    channelPassthrough: Option<string>,
    marketSubscriptionList: SubscriptionLists,
    trackers: Option<seq<(string, Tracker)>>)
  {
    ghost predicate WellOrdered() {
      && KeyOrder(serverOrder, serverList)
      && forall id :: id in serverList ==> serverList[id].WellOrdered()
    }
  }
}
