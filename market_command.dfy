/** The `/market` slash command: search the vending machines for items, subscribe to and
    unsubscribe from items per order type, and list the subscriptions. */
module MarketCommand {
  import opened Common
  import opened Document
  import opened Bot
  import opened MarketUtils

  // ---------------------------------------------------------------------------------
  // The subscribe and unsubscribe loops

  /** The ids met for the first time in `ids` whose presence in `list` equals `member`,
      in order. With `member` false these are the ids the subscribe loop adds; with
      `member` true the ids the unsubscribe loop removes. */
  function Firsts(ids: seq<ItemId>, list: seq<ItemId>, member: bool): seq<ItemId>
    decreases |ids|
  {
    if ids == [] then []
    else
      var init := ids[..|ids| - 1];
      var x := ids[|ids| - 1];
      Firsts(init, list, member) + (if (x in list) == member && x !in init then [x] else [])
  }

  /** The other ids, in order: the ones reported as already subscribed (`member` false) or
      as not subscribed (`member` true). A repeated id is always among these. */
  function Others(ids: seq<ItemId>, list: seq<ItemId>, member: bool): seq<ItemId>
    decreases |ids|
  {
    if ids == [] then []
    else
      var init := ids[..|ids| - 1];
      var x := ids[|ids| - 1];
      Others(init, list, member) + (if (x in list) == member && x !in init then [] else [x])
  }

  /** An id is among the firsts exactly when it is given and its presence in `list` is
      `member`; each of them once. */
  lemma {:induction false} FirstsMembers(ids: seq<ItemId>, list: seq<ItemId>, member: bool)
    ensures forall x :: x in Firsts(ids, list, member) <==> x in ids && (x in list) == member
    ensures NoDuplicates(Firsts(ids, list, member))
    decreases |ids|
  {
    if ids != [] {
      var init := ids[..|ids| - 1];
      FirstsMembers(init, list, member);
      assert ids == init + [ids[|ids| - 1]];
    }
  }

  /** Every given id is reported exactly once: either among the firsts or among the
      others. */
  lemma {:induction false} FirstsOthersPartition(ids: seq<ItemId>, list: seq<ItemId>, member: bool)
    ensures multiset(Firsts(ids, list, member)) + multiset(Others(ids, list, member)) == multiset(ids)
    decreases |ids|
  {
    if ids != [] {
      var init := ids[..|ids| - 1];
      FirstsOthersPartition(init, list, member);
      assert ids == init + [ids[|ids| - 1]];
    }
  }

  /** The list after subscribing: every given id is in it, no other id was added, the old
      list is its prefix, a list without duplicates stays without, and something was added
      exactly when some given id was missing. */
  lemma SubscribeSpec(list: seq<ItemId>, ids: seq<ItemId>)
    ensures forall x :: x in list + Firsts(ids, list, false) <==> x in list || x in ids
    ensures NoDuplicates(list) ==> NoDuplicates(list + Firsts(ids, list, false))
    ensures Firsts(ids, list, false) != [] <==> exists x :: x in ids && x !in list
  {
    FirstsMembers(ids, list, false);
    var added := Firsts(ids, list, false);
    if Firsts(ids, list, false) != [] {
      assert added[0] in added;
    }
    if NoDuplicates(list) {
      var r := list + added;
      forall i, j | 0 <= i < j < |r|
        ensures r[i] != r[j]
      {
        if j >= |list| && i < |list| {
          assert r[j] in added && r[i] in list;
        }
      }
    }
  }

  /** The elements of `list` that are not in `xs`, in order: the list after every id of
      `xs` is filtered out. */
  function Unlisted(list: seq<ItemId>, xs: seq<ItemId>): seq<ItemId>
    decreases |list|
  {
    if list == [] then [] else (if list[0] in xs then [] else [list[0]]) + Unlisted(list[1..], xs)
  }

  /** The filtered list keeps exactly the elements not filtered out. */
  lemma {:induction false} UnlistedMembers(list: seq<ItemId>, xs: seq<ItemId>)
    ensures forall x :: x in Unlisted(list, xs) <==> x in list && x !in xs
    decreases |list|
  {
    if list != [] {
      UnlistedMembers(list[1..], xs);
      assert forall x :: x in list <==> x == list[0] || x in list[1..];
    }
  }

  /** The filtered list keeps the order of the list. */
  lemma {:induction false} UnlistedKeepsOrder(list: seq<ItemId>, xs: seq<ItemId>)
    ensures Subsequence(Unlisted(list, xs), list)
    decreases |list|
  {
    if list != [] {
      var rest := Unlisted(list[1..], xs);
      UnlistedKeepsOrder(list[1..], xs);
      if list[0] in xs {
        assert Unlisted(list, xs) == rest;
        SubsequenceDrop(rest, list[1..], list[0]);
        assert [list[0]] + list[1..] == list;
      } else {
        var u := [list[0]] + rest;
        assert Unlisted(list, xs) == u;
        assert u[0] == list[0] && u[1..] == rest;
      }
    }
  }

  /** Filtering out ids none of which occurs changes nothing. */
  lemma {:induction false} UnlistedUnchanged(list: seq<ItemId>, xs: seq<ItemId>)
    requires forall x :: x in xs ==> x !in list
    ensures Unlisted(list, xs) == list
    decreases |list|
  {
    if list != [] {
      UnlistedUnchanged(list[1..], xs);
      assert list[0] in list;
      assert [list[0]] + list[1..] == list;
    }
  }

  /** Filtering one more id out of the filtered list. */
  lemma {:induction false} UnlistedNext(list: seq<ItemId>, xs: seq<ItemId>, y: ItemId)
    ensures Unlisted(list, xs + [y]) == Without(Unlisted(list, xs), y)
    decreases |list|
  {
    if list != [] {
      UnlistedNext(list[1..], xs, y);
      assert list[0] in xs + [y] <==> list[0] in xs || list[0] == y;
      var rest := Unlisted(list[1..], xs);
      if list[0] in xs {
        assert Unlisted(list, xs) == rest;
        assert Unlisted(list, xs + [y]) == Unlisted(list[1..], xs + [y]);
      } else {
        var u := [list[0]] + rest;
        assert Unlisted(list, xs) == u;
        assert u[0] == list[0] && u[1..] == rest;
        assert Without(u, list[0]) == Without(rest, list[0]);
      }
    }
  }

  /** Filtering out an id that does not occur changes nothing. */
  lemma {:induction false} WithoutAbsent(s: seq<ItemId>, y: ItemId)
    requires y !in s
    ensures Without(s, y) == s
    decreases |s|
  {
    if s != [] {
      WithoutAbsent(s[1..], y);
      assert [s[0]] + s[1..] == s;
    }
  }

  /** `getName(id) || id`: the item's name, or the id when the catalogue has none. */
  function DisplayName(items: Catalogue, id: ItemId): string {
    if items.name(id) != [] then items.name(id) else id
  }

  /** The display names of ids, in order. */
  function Names(items: Catalogue, ids: seq<ItemId>): seq<string>
    decreases |ids|
  {
    if ids == [] then [] else Names(items, ids[..|ids| - 1]) + [DisplayName(items, ids[|ids| - 1])]
  }

  /** One name per id, each the display name of its id. */
  lemma {:induction false} NamesPointwise(items: Catalogue, ids: seq<ItemId>)
    ensures |Names(items, ids)| == |ids|
    ensures forall i :: 0 <= i < |ids| ==> Names(items, ids)[i] == DisplayName(items, ids[i])
    decreases |ids|
  {
    if ids != [] {
      NamesPointwise(items, ids[..|ids| - 1]);
    }
  }

  lemma NamesAppend(items: Catalogue, ids: seq<ItemId>, x: ItemId)
    ensures Names(items, ids + [x]) == Names(items, ids) + [DisplayName(items, x)]
  {
    assert (ids + [x])[..|ids|] == ids;
  }

  /** The step of both loops from `ids[..i]` to `ids[..i + 1]`. */
  lemma LoopStep(ids: seq<ItemId>, list: seq<ItemId>, member: bool, i: nat)
    requires i < |ids|
    ensures var x := ids[i];
            var first := (x in list) == member && x !in ids[..i];
            && Firsts(ids[..i + 1], list, member) == Firsts(ids[..i], list, member) + (if first then [x] else [])
            && Others(ids[..i + 1], list, member) == Others(ids[..i], list, member) + (if first then [] else [x])
  {
    assert ids[..i + 1][..i] == ids[..i];
  }

  /** The subscribe loop's step: the id is added exactly when the list does not yet hold
      it. */
  lemma SubscribeStep(ids: seq<ItemId>, list: seq<ItemId>, i: nat, current: seq<ItemId>)
    requires i < |ids| && current == list + Firsts(ids[..i], list, false)
    ensures ids[i] in current ==>
      && Firsts(ids[..i + 1], list, false) == Firsts(ids[..i], list, false)
      && Others(ids[..i + 1], list, false) == Others(ids[..i], list, false) + [ids[i]]
    ensures ids[i] !in current ==>
      && Firsts(ids[..i + 1], list, false) == Firsts(ids[..i], list, false) + [ids[i]]
      && Others(ids[..i + 1], list, false) == Others(ids[..i], list, false)
  {
    LoopStep(ids, list, false, i);
    FirstsMembers(ids[..i], list, false);
    assert ids[i] in current <==> ids[i] in list || ids[i] in ids[..i];
    assert Firsts(ids[..i], list, false) + [] == Firsts(ids[..i], list, false);
    assert Others(ids[..i], list, false) + [] == Others(ids[..i], list, false);
  }

  /** The unsubscribe loop's step: the id is removed exactly when the filtered list still
      holds it. */
  lemma UnsubscribeStep(ids: seq<ItemId>, list: seq<ItemId>, i: nat, current: seq<ItemId>)
    requires i < |ids| && current == Unlisted(list, ids[..i])
    ensures ids[i] in current ==>
      && Firsts(ids[..i + 1], list, true) == Firsts(ids[..i], list, true) + [ids[i]]
      && Others(ids[..i + 1], list, true) == Others(ids[..i], list, true)
    ensures ids[i] !in current ==>
      && Firsts(ids[..i + 1], list, true) == Firsts(ids[..i], list, true)
      && Others(ids[..i + 1], list, true) == Others(ids[..i], list, true) + [ids[i]]
    ensures Unlisted(list, ids[..i + 1]) == Without(current, ids[i])
  {
    LoopStep(ids, list, true, i);
    UnlistedMembers(list, ids[..i]);
    assert ids[i] in current <==> ids[i] in list && ids[i] !in ids[..i];
    assert Firsts(ids[..i], list, true) + [] == Firsts(ids[..i], list, true);
    assert Others(ids[..i], list, true) + [] == Others(ids[..i], list, true);
    TakeNext(ids, i);
    UnlistedNext(list, ids[..i], ids[i]);
  }

  /** Pushing onto the list of an order type that already holds `added` after its old
      entries. */
  lemma PushOnto(lists: SubscriptionLists, t: OrderType, added: seq<ItemId>, id: ItemId)
    ensures var before := lists.Set(t, lists.Get(t) + added);
            before.Set(t, before.Get(t) + [id]) == lists.Set(t, lists.Get(t) + (added + [id]))
  {
    AppendAssoc(lists.Get(t), added, [id]);
    SetTwice(lists, t, lists.Get(t) + added, lists.Get(t) + added + [id]);
  }

  /** The subscribe loop: every id not yet in the order type's list is appended to it and
      to the session's first-poll list; the others are reported as already subscribed. */
  method SubscribeLoop(items: Catalogue, session: Session, lists: SubscriptionLists, t: OrderType, ids: seq<ItemId>)
    returns (newLists: SubscriptionLists, addedNames: seq<string>, alreadyNames: seq<string>)
    modifies session`firstPollItems
    ensures var added := Firsts(ids, lists.Get(t), false);
            && newLists == lists.Set(t, lists.Get(t) + added)
            && session.firstPollItems == old(session.firstPollItems).Set(t, old(session.firstPollItems).Get(t) + added)
            && addedNames == Names(items, added)
            && alreadyNames == Names(items, Others(ids, lists.Get(t), false))
  {
    ghost var list := lists.Get(t);
    ghost var poll := old(session.firstPollItems);
    ghost var added: seq<ItemId> := [];
    ghost var already: seq<ItemId> := [];
    var current := lists.Get(t);
    // The pushes onto the session's first-poll list are collected in `polls` and stored
    // once after the loop; nothing reads the session in between.
    var polls := session.firstPollItems;
    addedNames, alreadyNames := [], [];
    var i := 0;
    while i < |ids|
      invariant 0 <= i <= |ids|
      invariant added == Firsts(ids[..i], list, false) && already == Others(ids[..i], list, false)
      invariant current == list + added
      invariant polls == poll.Set(t, poll.Get(t) + added)
      invariant addedNames == Names(items, added) && alreadyNames == Names(items, already)
    {
      var id := ids[i];
      SubscribeStep(ids, list, i, current);
      if id in current {
        NamesAppend(items, already, id);
        already := already + [id];
        alreadyNames := alreadyNames + [DisplayName(items, id)];
      } else {
        NamesAppend(items, added, id);
        AppendAssoc(list, added, [id]);
        PushOnto(poll, t, added, id);
        added := added + [id];
        current := current + [id];
        polls := polls.Set(t, polls.Get(t) + [id]);
        addedNames := addedNames + [DisplayName(items, id)];
      }
      i := i + 1;
    }
    assert ids[..i] == ids;
    newLists := lists.Set(t, current);
    session.firstPollItems := polls;
  }

  /** The unsubscribe loop: every id in the order type's list is filtered out of it, all
      its occurrences at once; the others are reported as not subscribed. */
  method UnsubscribeLoop(items: Catalogue, lists: SubscriptionLists, t: OrderType, ids: seq<ItemId>)
    returns (newLists: SubscriptionLists, removedNames: seq<string>, missingNames: seq<string>)
    ensures newLists == lists.Set(t, Unlisted(lists.Get(t), ids))
    ensures removedNames == Names(items, Firsts(ids, lists.Get(t), true))
    ensures missingNames == Names(items, Others(ids, lists.Get(t), true))
  {
    var list := lists.Get(t);
    var current := list;
    ghost var removed: seq<ItemId> := [];
    ghost var missing: seq<ItemId> := [];
    removedNames, missingNames := [], [];
    UnlistedUnchanged(list, []);
    var i := 0;
    while i < |ids|
      invariant 0 <= i <= |ids|
      invariant current == Unlisted(list, ids[..i])
      invariant removed == Firsts(ids[..i], list, true) && missing == Others(ids[..i], list, true)
      invariant removedNames == Names(items, removed) && missingNames == Names(items, missing)
    {
      var id := ids[i];
      UnsubscribeStep(ids, list, i, current);
      if id in current {
        NamesAppend(items, removed, id);
        removed := removed + [id];
        current := Without(current, id);
        removedNames := removedNames + [DisplayName(items, id)];
      } else {
        NamesAppend(items, missing, id);
        missing := missing + [id];
        WithoutAbsent(current, id);
        missingNames := missingNames + [DisplayName(items, id)];
      }
      i := i + 1;
    }
    assert ids[..i] == ids;
    newLists := lists.Set(t, current);
  }

  /** After unsubscribing, no given id is left in the list, every other entry stays in
      its order, and something was removed exactly when some given id was subscribed. */
  lemma UnsubscribeSpec(list: seq<ItemId>, ids: seq<ItemId>)
    ensures forall x :: x in Unlisted(list, ids) <==> x in list && x !in ids
    ensures Subsequence(Unlisted(list, ids), list)
    ensures Firsts(ids, list, true) != [] <==> exists x :: x in ids && x in list
  {
    UnlistedMembers(list, ids);
    UnlistedKeepsOrder(list, ids);
    FirstsMembers(ids, list, true);
    var removed := Firsts(ids, list, true);
    if removed != [] {
      assert removed[0] in removed;
    }
  }

  // ---------------------------------------------------------------------------------
  // The list case

  /** The line of one subscribed item in the list: its name and id in backticks. */
  function ListEntry(items: Catalogue, id: ItemId): string {
    "`" + items.name(id) + " (" + id + ")`\n"
  }

  /** The text of one order type's column: the entries of its ids, in order. */
  function ListText(items: Catalogue, ids: seq<ItemId>): string
    decreases |ids|
  {
    if ids == [] then [] else ListText(items, ids[..|ids| - 1]) + ListEntry(items, ids[|ids| - 1])
  }

  /** A column is empty exactly when no item is subscribed, and otherwise ends with the
      last item's entry. */
  lemma ListTextSpec(items: Catalogue, ids: seq<ItemId>)
    ensures ListText(items, ids) == [] <==> ids == []
    ensures ids != [] ==>
      var e := ListEntry(items, ids[|ids| - 1]);
      |e| <= |ListText(items, ids)| && ListText(items, ids)[|ListText(items, ids)| - |e|..] == e
  {
    if ids != [] {
      var e := ListEntry(items, ids[|ids| - 1]);
      assert e[0] == '`';
    }
  }

  /** The loop that builds one column. */
  method BuildListText(items: Catalogue, ids: seq<ItemId>) returns (text: string)
    ensures text == ListText(items, ids)
  {
    text := [];
    var i := 0;
    while i < |ids|
      invariant 0 <= i <= |ids|
      invariant text == ListText(items, ids[..i])
    {
      assert ids[..i + 1][..i] == ids[..i];
      text := text + ListEntry(items, ids[i]);
      i := i + 1;
    }
    assert ids[..i] == ids;
  }

  /** The value shown for a column: a zero-width space stands in for an empty one. */
  function FieldValue(text: string): (r: string)
    ensures r != []
    ensures text != [] ==> r == text
  {
    if text == [] then "​" else text
  }

  // ---------------------------------------------------------------------------------
  // execute

  datatype Subcommand =
    | SearchItems(name: Option<string>, id: Option<ItemId>, orderName: string)
    | SubscribeItems(name: Option<string>, id: Option<ItemId>, orderType: OrderType)
    | UnsubscribeItems(name: Option<string>, id: Option<ItemId>, orderType: OrderType)
    | ListSubscriptions

  /** What the command replies. Embed type 0 is the success style, 1 the warning style. */
  datatype Reply =
    | NoReply
    | NotConnected
    | ItemsNotResolved(error: ResolutionError)
    | SearchResult(names: seq<string>, description: Option<string>)
    | Subscribed(addedNames: seq<string>, alreadyNames: seq<string>, embedType: int)
    | Unsubscribed(removedNames: seq<string>, missingNames: seq<string>, embedType: int)
    | SubscriptionList(all: string, buy: string, sell: string)
    | ServerMissing

  /** The item ids a subcommand names, when it names any. */
  function Resolve(items: Catalogue, cmd: Subcommand): Resolution
    requires !cmd.ListSubscriptions?
  {
    GetItemIdsFromInput(items, cmd.name, cmd.id)
  }

  /** Whether the command went as far as changing the subscription list. */
  predicate ListChange(items: Catalogue, cmd: Subcommand, instance: Instance, session: Session?)
    reads session
  {
    && session != null && session.isOperational
    && session.serverId in instance.serverList
    && (cmd.SubscribeItems? || cmd.UnsubscribeItems?)
    && Resolve(items, cmd).ItemIds?
  }

  /** The document after subscribing to `ids` for order type `t`. */
  function WithSubscribed(instance: Instance, t: OrderType, ids: seq<ItemId>): Instance {
    var subs := instance.marketSubscriptionList;
    instance.(marketSubscriptionList := subs.Set(t, subs.Get(t) + Firsts(ids, subs.Get(t), false)))
  }

  /** The document after unsubscribing from `ids` for order type `t`. */
  function WithUnsubscribed(instance: Instance, t: OrderType, ids: seq<ItemId>): Instance {
    var subs := instance.marketSubscriptionList;
    instance.(marketSubscriptionList := subs.Set(t, Unlisted(subs.Get(t), ids)))
  }

  /** The reply to a subscription: success style exactly when an id was added. */
  function SubscribeReply(items: Catalogue, list: seq<ItemId>, ids: seq<ItemId>): Reply {
    var added := Firsts(ids, list, false);
    Subscribed(Names(items, added), Names(items, Others(ids, list, false)), if added != [] then 0 else 1)
  }

  /** The reply to an unsubscription: success style exactly when an id was removed. */
  function UnsubscribeReply(items: Catalogue, list: seq<ItemId>, ids: seq<ItemId>): Reply {
    var removed := Firsts(ids, list, true);
    Unsubscribed(Names(items, removed), Names(items, Others(ids, list, true)), if removed != [] then 0 else 1)
  }

  /** The `subscribe` case once the items are resolved: update the list, store the
      document, refresh the market message and reply. */
  method SubscribeCommand(client: Client, guildId: GuildId, session: Session, items: Catalogue, t: OrderType,
                          ids: seq<ItemId>) returns (reply: Reply)
    requires guildId in client.instances
    modifies client`instances, client`outbox, session`firstPollItems
    ensures var instance := old(client.instances[guildId]);
            var added := Firsts(ids, instance.marketSubscriptionList.Get(t), false);
            && client.instances == old(client.instances)[guildId := WithSubscribed(instance, t, ids)]
            && client.outbox == old(client.outbox) + [MarketListingsMessage(guildId, session.serverId)]
            && session.firstPollItems == old(session.firstPollItems).Set(t, old(session.firstPollItems).Get(t) + added)
            && reply == SubscribeReply(items, instance.marketSubscriptionList.Get(t), ids)
  {
    var instance := client.instances[guildId];
    var newLists, addedNames, alreadyNames := SubscribeLoop(items, session, instance.marketSubscriptionList, t, ids);
    client.instances := client.instances[guildId := instance.(marketSubscriptionList := newLists)];
    client.outbox := client.outbox + [MarketListingsMessage(guildId, session.serverId)];
    NamesPointwise(items, Firsts(ids, instance.marketSubscriptionList.Get(t), false));
    reply := Subscribed(addedNames, alreadyNames, if |addedNames| > 0 then 0 else 1);
  }

  /** The `unsubscribe` case once the items are resolved. */
  method UnsubscribeCommand(client: Client, guildId: GuildId, session: Session, items: Catalogue, t: OrderType,
                            ids: seq<ItemId>) returns (reply: Reply)
    requires guildId in client.instances
    modifies client`instances, client`outbox
    ensures var instance := old(client.instances[guildId]);
            && client.instances == old(client.instances)[guildId := WithUnsubscribed(instance, t, ids)]
            && client.outbox == old(client.outbox) + [MarketListingsMessage(guildId, session.serverId)]
            && reply == UnsubscribeReply(items, instance.marketSubscriptionList.Get(t), ids)
  {
    var instance := client.instances[guildId];
    var newLists, removedNames, missingNames := UnsubscribeLoop(items, instance.marketSubscriptionList, t, ids);
    client.instances := client.instances[guildId := instance.(marketSubscriptionList := newLists)];
    client.outbox := client.outbox + [MarketListingsMessage(guildId, session.serverId)];
    NamesPointwise(items, Firsts(ids, instance.marketSubscriptionList.Get(t), true));
    reply := Unsubscribed(removedNames, missingNames, if |removedNames| > 0 then 0 else 1);
  }

  /** The description of a search: the diff block of the matching listing lines, `None`
      (shown as "no item found") when nothing matches or there are no markers. */
  function SearchDescription(items: Catalogue, words: LineWords, markers: Option<seq<Option<VendingMachine>>>,
                             ids: seq<ItemId>, orderName: string): Option<string>
  {
    var lines := if markers.None? then [] else MatchingLines(items, words, markers.value, orderName, TrackedSet(ids));
    if lines == [] then None else Some(Fenced(DiffBody(lines, DefaultMaxLength)))
  }

  /** The `search` case once the items are resolved. */
  method SearchCommand(items: Catalogue, words: LineWords, markers: Option<seq<Option<VendingMachine>>>,
                       ids: seq<ItemId>, orderName: string) returns (reply: Reply)
    ensures reply == SearchResult(Names(items, ids), SearchDescription(items, words, markers, ids, orderName))
  {
    var lines := CollectMatchingOrders(items, words, markers, Some(ids), orderName);
    var description := FormatDiffLines(Some(lines), DefaultMaxLength);
    reply := SearchResult(Names(items, ids), description);
  }

  /** The `list` case: one column per order type. */
  method ListCommand(items: Catalogue, subs: SubscriptionLists) returns (reply: Reply)
    ensures reply == SubscriptionList(FieldValue(ListText(items, subs.all)), FieldValue(ListText(items, subs.buy)),
                                      FieldValue(ListText(items, subs.sell)))
  {
    var all := BuildListText(items, subs.all);
    var buy := BuildListText(items, subs.buy);
    var sell := BuildListText(items, subs.sell);
    reply := SubscriptionList(FieldValue(all), FieldValue(buy), FieldValue(sell));
  }

  /** `execute(client, interaction)` for the guild `guildId`, whose session is `rustplus`.
      `permitted` is the outcome of the permission check, `markers` the session's vending
      machines (`None` when it has none) and `words` the localised words of the listing
      lines. */
  method Execute(client: Client, guildId: GuildId, rustplus: Session?, permitted: bool, items: Catalogue,
                 words: LineWords, markers: Option<seq<Option<VendingMachine>>>, cmd: Subcommand)
    returns (reply: Reply)
    requires guildId in client.instances && rustplus == CurrentSession(client, guildId)
    modifies client`instances, client`outbox, AsFrame(rustplus)`firstPollItems
    ensures !(permitted && ListChange(items, cmd, old(client.instances[guildId]), rustplus)) ==>
              && client.instances == old(client.instances) && client.outbox == old(client.outbox)
              && (rustplus != null ==> rustplus.firstPollItems == old(rustplus.firstPollItems))
    ensures !permitted ==> reply == NoReply
    ensures permitted && (rustplus == null || !rustplus.isOperational) ==> reply == NotConnected
    ensures permitted && rustplus != null && rustplus.isOperational && !cmd.ListSubscriptions?
            && Resolve(items, cmd).ResolutionFailed? ==>
              reply == ItemsNotResolved(Resolve(items, cmd).error)
    ensures permitted && rustplus != null && rustplus.isOperational
            && rustplus.serverId !in old(client.instances[guildId]).serverList
            && (cmd.ListSubscriptions? || Resolve(items, cmd).ItemIds?) ==>
              reply == ServerMissing
    ensures var instance := old(client.instances[guildId]);
            permitted && ListChange(items, cmd, instance, rustplus) ==>
              var list := instance.marketSubscriptionList.Get(cmd.orderType);
              var ids := Resolve(items, cmd).ids;
              && client.outbox == old(client.outbox) + [MarketListingsMessage(guildId, rustplus.serverId)]
              && (cmd.SubscribeItems? ==>
                   && client.instances == old(client.instances)[guildId := WithSubscribed(instance, cmd.orderType, ids)]
                   && rustplus.firstPollItems == old(rustplus.firstPollItems).Set(cmd.orderType,
                        old(rustplus.firstPollItems).Get(cmd.orderType) + Firsts(ids, list, false))
                   && reply == SubscribeReply(items, list, ids))
              && (cmd.UnsubscribeItems? ==>
                   && client.instances == old(client.instances)[guildId := WithUnsubscribed(instance, cmd.orderType, ids)]
                   && rustplus.firstPollItems == old(rustplus.firstPollItems)
                   && reply == UnsubscribeReply(items, list, ids))
    ensures permitted && rustplus != null && rustplus.isOperational
            && rustplus.serverId in old(client.instances[guildId]).serverList
            && cmd.SearchItems? && Resolve(items, cmd).ItemIds? ==>
              var ids := Resolve(items, cmd).ids;
              reply == SearchResult(Names(items, ids), SearchDescription(items, words, markers, ids, cmd.orderName))
    ensures var subs := old(client.instances[guildId]).marketSubscriptionList;
            permitted && rustplus != null && rustplus.isOperational
            && rustplus.serverId in old(client.instances[guildId]).serverList && cmd.ListSubscriptions? ==>
              reply == SubscriptionList(FieldValue(ListText(items, subs.all)), FieldValue(ListText(items, subs.buy)),
                                        FieldValue(ListText(items, subs.sell)))
  {
    if !permitted {
      return NoReply;
    }
    var instance := client.instances[guildId];
    if rustplus == null || !rustplus.isOperational {
      return NotConnected;
    }
    if !cmd.ListSubscriptions? && Resolve(items, cmd).ResolutionFailed? {
      return ItemsNotResolved(Resolve(items, cmd).error);
    }
    if rustplus.serverId !in instance.serverList {
      // Every subcommand reads the server's title, after resolving the items and before
      // changing any list; a missing server is a TypeError.
      return ServerMissing;
    }
    match cmd {
      case ListSubscriptions =>
        reply := ListCommand(items, instance.marketSubscriptionList);
      case SearchItems(name, id, orderName) =>
        var resolution := GetItemIdsFromInput(items, name, id);
        reply := SearchCommand(items, words, markers, resolution.ids, orderName);
      case SubscribeItems(name, id, t) =>
        var resolution := GetItemIdsFromInput(items, name, id);
        reply := SubscribeCommand(client, guildId, rustplus, items, t, resolution.ids);
      case UnsubscribeItems(name, id, t) =>
        var resolution := GetItemIdsFromInput(items, name, id);
        reply := UnsubscribeCommand(client, guildId, rustplus, items, t, resolution.ids);
    }
  }
}
