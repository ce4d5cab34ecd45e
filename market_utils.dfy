/** The market helpers: which sell orders a tracked item matches, how the item ids of a
    command are resolved, the listing lines of the matching orders, and the length-bounded
    diff block they are shown in. */
module MarketUtils {
  import opened Common
  import opened Strings
  import opened Document

  // ---------------------------------------------------------------------------------
  // hasWildcard and shouldIncludeOrder

  /** `hasWildcard(str)`, with `None` for an argument that is not a string. */
  function HasWildcard(str: Option<string>): (r: bool)
    ensures r <==> str.Some? && ('*' in str.value || '?' in str.value)
  {
    if str.None? then false
    else
      ContainsChar(str.value, '*');
      ContainsChar(str.value, '?');
      Contains(str.value, "*") || Contains(str.value, "?")
  }

  /** The `order` option value of an order type. */
  function OrderTypeName(t: OrderType): string {
    match t
    case All => "all"
    case Buy => "buy"
    case Sell => "sell"
  }

  /** `shouldIncludeOrder(orderType, trackedSet, itemId, currencyId)`; `None` is a null id. */
  function ShouldIncludeOrder(orderType: string, tracked: set<int>, itemId: Option<int>, currencyId: Option<int>): bool {
    if tracked == {} then false
    else
      var itemMatch := itemId.Some? && itemId.value in tracked;
      var currencyMatch := currencyId.Some? && currencyId.value in tracked;
      if orderType == "all" then itemMatch || currencyMatch
      else if orderType == "buy" then currencyMatch
      else if orderType == "sell" then itemMatch
      else false
  }

  /** An order is included exactly when the tracked set holds the id the order type looks
      at: item or currency for "all", the currency for "buy", the item for "sell"; never
      for an empty tracked set or another order type. */
  lemma ShouldIncludeOrderSpec(orderType: string, tracked: set<int>, itemId: Option<int>, currencyId: Option<int>)
    ensures tracked == {} ==> !ShouldIncludeOrder(orderType, tracked, itemId, currencyId)
    ensures orderType !in {"all", "buy", "sell"} ==> !ShouldIncludeOrder(orderType, tracked, itemId, currencyId)
    ensures orderType == "all" ==>
      (ShouldIncludeOrder(orderType, tracked, itemId, currencyId) <==>
         (itemId.Some? && itemId.value in tracked) || (currencyId.Some? && currencyId.value in tracked))
    ensures orderType == "buy" ==>
      (ShouldIncludeOrder(orderType, tracked, itemId, currencyId) <==> currencyId.Some? && currencyId.value in tracked)
    ensures orderType == "sell" ==>
      (ShouldIncludeOrder(orderType, tracked, itemId, currencyId) <==> itemId.Some? && itemId.value in tracked)
  {
  }

  // ---------------------------------------------------------------------------------
  // getItemIdsFromInput

  /** The bot's item catalogue, which this model does not contain: the ids a wildcard
      pattern matches, the id of the closest item name, and whether an id exists. */
  datatype Catalogue = Catalogue(
    byWildcard: string -> seq<ItemId>,
    closestByName: string -> Option<ItemId>,
    known: ItemId -> bool,
    name: ItemId -> string)

  datatype ResolutionError = NoItemWithNameFound(name: string) | NoItemWithIdFound(id: ItemId) | NoNameIdGiven

  /** Either the item ids or the error key with its argument: never both. */
  datatype Resolution = ItemIds(ids: seq<ItemId>) | ResolutionFailed(error: ResolutionError)

  /** `getItemIdsFromInput(client, guildId, nameInput, idInput)`; `None` is null or
      undefined. */
  function GetItemIdsFromInput(items: Catalogue, nameInput: Option<string>, idInput: Option<ItemId>): (r: Resolution)
    ensures r.ItemIds? ==> r.ids != []
    ensures r == ResolutionFailed(NoNameIdGiven) <==> nameInput.None? && idInput.None?
  {
    if nameInput.Some? then
      var name := nameInput.value;
      if HasWildcard(nameInput) then
        var ids := items.byWildcard(name);
        if |ids| == 0 then ResolutionFailed(NoItemWithNameFound(name)) else ItemIds(ids)
      else
        match items.closestByName(name)
        case None => ResolutionFailed(NoItemWithNameFound(name))
        case Some(id) => ItemIds([id])
    else if idInput.Some? then
      if items.known(idInput.value) then ItemIds([idInput.value])
      else ResolutionFailed(NoItemWithIdFound(idInput.value))
    else ResolutionFailed(NoNameIdGiven)
  }

  /** A given name takes precedence: the id is then ignored, and the ids come from the
      name alone (every wildcard match, or the one closest item). Without a name, an
      existing id resolves to itself and an unknown one to its error. */
  lemma GetItemIdsFromInputSpec(items: Catalogue, nameInput: Option<string>, idInput: Option<ItemId>)
    ensures nameInput.Some? ==>
      GetItemIdsFromInput(items, nameInput, idInput) == GetItemIdsFromInput(items, nameInput, None)
    ensures nameInput.Some? && HasWildcard(nameInput) ==>
      match GetItemIdsFromInput(items, nameInput, idInput)
      case ItemIds(ids) => ids == items.byWildcard(nameInput.value)
      case ResolutionFailed(e) => e == NoItemWithNameFound(nameInput.value) && items.byWildcard(nameInput.value) == []
    ensures nameInput.Some? && !HasWildcard(nameInput) ==>
      match GetItemIdsFromInput(items, nameInput, idInput)
      case ItemIds(ids) => items.closestByName(nameInput.value) == Some(ids[0]) && |ids| == 1
      case ResolutionFailed(e) => e == NoItemWithNameFound(nameInput.value) && items.closestByName(nameInput.value).None?
    ensures nameInput.None? && idInput.Some? ==>
      GetItemIdsFromInput(items, nameInput, idInput)
        == if items.known(idInput.value) then ItemIds([idInput.value]) else ResolutionFailed(NoItemWithIdFound(idInput.value))
  {
  }

  // ---------------------------------------------------------------------------------
  // collectMatchingOrders

  /** A sell order as the map markers report it. An id that is not an integer is `None`. */
  datatype SellOrder = SellOrder(
    itemId: Option<int>,
    currencyId: Option<int>,
    quantity: int,
    costPerItem: int,
    amountInStock: int,
    itemIsBlueprint: bool,
    currencyIsBlueprint: bool)

  /** A vending machine marker; `sellOrders` is `None` when it is not an array, and a
      missing order is `None`. */
  datatype VendingMachine = VendingMachine(location: Option<string>, sellOrders: Option<seq<Option<SellOrder>>>)

  /** What each tracked id parses to, position by position. */
  function Parsed(ids: seq<string>): (r: seq<Number>)
    ensures |r| == |ids|
  {
    seq(|ids|, i requires 0 <= i < |ids| => ParseInt(ids[i]))
  }

  /** The finite values among parsed numbers. */
  function FiniteValues(ns: seq<Number>): set<int>
    decreases |ns|
  {
    if ns == [] then {}
    else
      var last := ns[|ns| - 1];
      FiniteValues(ns[..|ns| - 1]) + (if last.Finite? then {last.value} else {})
  }

  /** A value is among the finite values exactly when it occurs as a finite number. */
  lemma {:induction false} FiniteValuesMembers(ns: seq<Number>, n: int)
    ensures n in FiniteValues(ns) <==> Finite(n) in ns
    decreases |ns|
  {
    if ns != [] {
      var init := ns[..|ns| - 1];
      FiniteValuesMembers(init, n);
      assert ns == init + [ns[|ns| - 1]];
    }
  }

  /** The integers the tracked ids parse to; ids that do not parse are dropped. */
  function TrackedSet(ids: seq<string>): set<int> {
    FiniteValues(Parsed(ids))
  }

  /** The tracked set holds exactly the values of the ids that parse. */
  lemma TrackedSetMembers(ids: seq<string>, n: int)
    ensures n in TrackedSet(ids) <==> exists i :: 0 <= i < |ids| && ParseInt(ids[i]) == Finite(n)
  {
    var ns := Parsed(ids);
    FiniteValuesMembers(ns, n);
    if n in TrackedSet(ids) {
      var i :| 0 <= i < |ns| && ns[i] == Finite(n);
      assert ParseInt(ids[i]) == Finite(n);
    }
    if exists i :: 0 <= i < |ids| && ParseInt(ids[i]) == Finite(n) {
      var i :| 0 <= i < |ids| && ParseInt(ids[i]) == Finite(n);
      assert ns[i] == Finite(n);
    }
  }

  /** An id printed from an integer is tracked as that integer. */
  lemma TrackedPrinted(ids: seq<string>, n: int)
    ensures IntToString(n) in ids ==> n in TrackedSet(ids)
  {
    if IntToString(n) in ids {
      var i :| 0 <= i < |ids| && ids[i] == IntToString(n);
      ParseIntOfIntToString(n);
      TrackedSetMembers(ids, n);
    }
  }

  /** The loop that builds `trackedSet`. */
  method BuildTrackedSet(ids: seq<string>) returns (tracked: set<int>)
    ensures tracked == TrackedSet(ids)
  {
    ghost var ns := Parsed(ids);
    tracked := {};
    var i := 0;
    while i < |ids|
      invariant 0 <= i <= |ids|
      invariant tracked == FiniteValues(ns[..i])
    {
      var parsed := ParseInt(ids[i]);
      assert ns[..i + 1][..i] == ns[..i];
      assert ns[..i + 1][i] == parsed;
      if parsed.Finite? {
        tracked := tracked + {parsed.value};
      }
      i := i + 1;
    }
    assert ns[..i] == ns;
  }

  /** One sell order with the location string of its vending machine. */
  datatype Listing = Listing(location: string, order: SellOrder)

  /** The location shown for a machine: its location string, or `unknown` when missing or
      empty. */
  function LocationString(vm: VendingMachine, unknown: string): string {
    if vm.location.Some? && vm.location.value != [] then vm.location.value else unknown
  }

  /** The orders of one machine, in order, skipping missing ones. */
  function MachineListings(location: string, orders: seq<Option<SellOrder>>): seq<Listing>
    decreases |orders|
  {
    if orders == [] then []
    else (if orders[0].Some? then [Listing(location, orders[0].value)] else []) + MachineListings(location, orders[1..])
  }

  /** Every order of every machine, machine by machine, skipping missing machines and
      machines whose orders are not an array. */
  function AllListings(vms: seq<Option<VendingMachine>>, unknown: string): seq<Listing>
    decreases |vms|
  {
    if vms == [] then []
    else
      var rest := AllListings(vms[1..], unknown);
      if vms[0].None? || vms[0].value.sellOrders.None? then rest
      else MachineListings(LocationString(vms[0].value, unknown), vms[0].value.sellOrders.value) + rest
  }

  /** The order passes the loop's tests: in stock (an amount of exactly 0 is skipped) and
      included for the order type. */
  predicate Wanted(l: Listing, orderType: string, tracked: set<int>) {
    l.order.amountInStock != 0 && ShouldIncludeOrder(orderType, tracked, l.order.itemId, l.order.currencyId)
  }

  /** The wanted listings, in their original order. */
  function Matching(ls: seq<Listing>, orderType: string, tracked: set<int>): seq<Listing>
    decreases |ls|
  {
    if ls == [] then []
    else (if Wanted(ls[0], orderType, tracked) then [ls[0]] else []) + Matching(ls[1..], orderType, tracked)
  }

  /** The matching listings are exactly the wanted ones. */
  lemma {:induction false} MatchingMembers(ls: seq<Listing>, orderType: string, tracked: set<int>)
    ensures forall l :: l in Matching(ls, orderType, tracked) <==> l in ls && Wanted(l, orderType, tracked)
    decreases |ls|
  {
    if ls != [] {
      MatchingMembers(ls[1..], orderType, tracked);
      assert forall l :: l in ls <==> l == ls[0] || l in ls[1..];
    }
  }

  /** `a` is `b` with some elements left out, the others in the same order. */
  predicate Subsequence<T(==)>(a: seq<T>, b: seq<T>)
    decreases |b|
  {
    if a == [] then true
    else if b == [] then false
    else if a[0] == b[0] then Subsequence(a[1..], b[1..])
    else Subsequence(a, b[1..])
  }

  /** An element in front of the longer sequence keeps the relation. */
  lemma {:induction false} SubsequenceDrop<T>(a: seq<T>, b: seq<T>, x: T)
    requires Subsequence(a, b)
    ensures Subsequence(a, [x] + b)
    decreases |b|, 1
  {
    if a != [] && a[0] == x {
      assert ([x] + b)[1..] == b;
      SubsequenceTail(a, b);
    } else {
      assert ([x] + b)[1..] == b;
    }
  }

  /** Dropping the first element of the shorter sequence keeps the relation. */
  lemma {:induction false} SubsequenceTail<T>(a: seq<T>, b: seq<T>)
    requires a != [] && Subsequence(a, b)
    ensures Subsequence(a[1..], b)
    decreases |b|, 0
  {
    if b != [] {
      if a[0] == b[0] {
        SubsequenceDrop(a[1..], b[1..], b[0]);
        assert [b[0]] + b[1..] == b;
      } else {
        SubsequenceTail(a, b[1..]);
        SubsequenceDrop(a[1..], b[1..], b[0]);
        assert [b[0]] + b[1..] == b;
      }
    }
  }

  /** The matching listings keep their relative order. */
  lemma {:induction false} MatchingKeepsOrder(ls: seq<Listing>, orderType: string, tracked: set<int>)
    ensures Subsequence(Matching(ls, orderType, tracked), ls)
    decreases |ls|
  {
    if ls != [] {
      var rest := Matching(ls[1..], orderType, tracked);
      MatchingKeepsOrder(ls[1..], orderType, tracked);
      if Wanted(ls[0], orderType, tracked) {
        assert ([ls[0]] + rest)[1..] == rest;
      } else {
        assert Matching(ls, orderType, tracked) == rest;
        SubsequenceDrop(rest, ls[1..], ls[0]);
        assert [ls[0]] + ls[1..] == ls;
      }
    }
  }

  lemma {:induction false} MatchingAppend(a: seq<Listing>, b: seq<Listing>, orderType: string, tracked: set<int>)
    ensures Matching(a + b, orderType, tracked) == Matching(a, orderType, tracked) + Matching(b, orderType, tracked)
    decreases |a|
  {
    if a == [] {
      assert a + b == b;
    } else {
      MatchingAppend(a[1..], b, orderType, tracked);
      assert (a + b)[1..] == a[1..] + b;
      assert (a + b)[0] == a[0];
    }
  }

  /** With an empty tracked set nothing matches. */
  lemma {:induction false} MatchingNothingTracked(ls: seq<Listing>, orderType: string)
    ensures Matching(ls, orderType, {}) == []
    decreases |ls|
  {
    if ls != [] {
      ShouldIncludeOrderSpec(orderType, {}, ls[0].order.itemId, ls[0].order.currencyId);
      MatchingNothingTracked(ls[1..], orderType);
    }
  }

  /** Localised words and the item names the listing lines use. */
  datatype LineWords = LineWords(unknown: string, left: string)

  /** The name shown for an id: the catalogue's name for a known id, otherwise `unknown`. */
  function ItemName(items: Catalogue, id: Option<int>, unknown: string): string {
    if id.Some? && items.known(IntToString(id.value)) then items.name(IntToString(id.value)) else unknown
  }

  /** The listing line of one order. */
  function OrderLine(items: Catalogue, words: LineWords, l: Listing): string {
    var o := l.order;
    "+ [" + l.location + "] " + IntToString(o.quantity) + "x " + ItemName(items, o.itemId, words.unknown)
    + (if o.itemIsBlueprint then " (BP)" else "")
    + " for " + IntToString(o.costPerItem) + "x " + ItemName(items, o.currencyId, words.unknown)
    + (if o.currencyIsBlueprint then " (BP)" else "")
    + " (" + IntToString(o.amountInStock) + " " + words.left + ")"
  }

  /** The line function of a catalogue and its words. */
  function LineOf(items: Catalogue, words: LineWords): Listing -> string {
    l => OrderLine(items, words, l)
  }

  /** One line per listing, in order. */
  function Lines(line: Listing -> string, ls: seq<Listing>): (r: seq<string>)
    decreases |ls|
  {
    if ls == [] then [] else [line(ls[0])] + Lines(line, ls[1..])
  }

  lemma {:induction false} LinesAppend(line: Listing -> string, a: seq<Listing>, b: seq<Listing>)
    ensures Lines(line, a + b) == Lines(line, a) + Lines(line, b)
    decreases |a|
  {
    if a == [] {
      assert a + b == b;
    } else {
      LinesAppend(line, a[1..], b);
      assert (a + b)[1..] == a[1..] + b;
      assert (a + b)[0] == a[0];
    }
  }

  /** Line `i` is the line of listing `i`. */
  lemma {:induction false} LinesPointwise(line: Listing -> string, ls: seq<Listing>)
    ensures |Lines(line, ls)| == |ls|
    ensures forall i :: 0 <= i < |ls| ==> Lines(line, ls)[i] == line(ls[i])
    decreases |ls|
  {
    if ls != [] {
      LinesPointwise(line, ls[1..]);
    }
  }

  /** The listing lines for the machines, as the loops of `collectMatchingOrders` produce
      them. */
  function MatchingLines(items: Catalogue, words: LineWords, vms: seq<Option<VendingMachine>>,
                         orderType: string, tracked: set<int>): seq<string>
  {
    Lines(LineOf(items, words), Matching(AllListings(vms, words.unknown), orderType, tracked))
  }

  /** The line an order of a machine contributes, if any. */
  function OrderContribution(line: Listing -> string, location: string, order: Option<SellOrder>,
                             orderType: string, tracked: set<int>): seq<string>
  {
    if order.Some? && Wanted(Listing(location, order.value), orderType, tracked)
    then [line(Listing(location, order.value))] else []
  }

  /** The lines of a machine's orders from `j` on: the contribution of order `j`, then the
      rest. */
  lemma MachineLinesStep(line: Listing -> string, location: string, orders: seq<Option<SellOrder>>,
                         j: nat, orderType: string, tracked: set<int>)
    requires j < |orders|
    ensures Lines(line, Matching(MachineListings(location, orders[j..]), orderType, tracked))
            == OrderContribution(line, location, orders[j], orderType, tracked)
               + Lines(line, Matching(MachineListings(location, orders[j + 1..]), orderType, tracked))
  {
    assert orders[j..][1..] == orders[j + 1..];
    var here := if orders[j].Some? then [Listing(location, orders[j].value)] else [];
    var rest := MachineListings(location, orders[j + 1..]);
    assert MachineListings(location, orders[j..]) == here + rest;
    MatchingAppend(here, rest, orderType, tracked);
    LinesAppend(line, Matching(here, orderType, tracked), Matching(rest, orderType, tracked));
    if orders[j].Some? {
      assert Matching(here, orderType, tracked)
             == (if Wanted(here[0], orderType, tracked) then [here[0]] else []) + Matching([], orderType, tracked);
    }
  }

  /** The inner loop over the orders of one machine. */
  method CollectMachineLines(items: Catalogue, words: LineWords, location: string, orders: seq<Option<SellOrder>>,
                             orderType: string, tracked: set<int>) returns (lines: seq<string>)
    ensures lines == Lines(LineOf(items, words), Matching(MachineListings(location, orders), orderType, tracked))
  {
    ghost var line := LineOf(items, words);
    lines := [];
    var j := 0;
    while j < |orders|
      invariant 0 <= j <= |orders|
      invariant lines + Lines(line, Matching(MachineListings(location, orders[j..]), orderType, tracked))
                == Lines(line, Matching(MachineListings(location, orders), orderType, tracked))
    {
      var order := orders[j];
      MachineLinesStep(line, location, orders, j, orderType, tracked);
      ghost var before := lines;
      if order.Some? && order.value.amountInStock != 0 {
        var o := order.value;
        if ShouldIncludeOrder(orderType, tracked, o.itemId, o.currencyId) {
          lines := lines + [OrderLine(items, words, Listing(location, o))];
        }
      }
      ghost var contribution := OrderContribution(line, location, order, orderType, tracked);
      ghost var rest := Lines(line, Matching(MachineListings(location, orders[j + 1..]), orderType, tracked));
      assert lines == before + contribution;
      AppendAssoc(before, contribution, rest);
      j := j + 1;
    }
    assert orders[j..] == [];
  }

  /** The lines a machine contributes: none when it is missing or its orders are not an
      array. */
  function MachineContribution(line: Listing -> string, vm: Option<VendingMachine>, unknown: string,
                               orderType: string, tracked: set<int>): seq<string>
  {
    if vm.None? || vm.value.sellOrders.None? then []
    else
      Lines(line, Matching(MachineListings(LocationString(vm.value, unknown), vm.value.sellOrders.value),
                           orderType, tracked))
  }

  /** The lines of the machines from `i` on: machine `i`'s, then the rest. */
  lemma MachinesStep(items: Catalogue, words: LineWords, vms: seq<Option<VendingMachine>>, i: nat,
                     orderType: string, tracked: set<int>)
    requires i < |vms|
    ensures MatchingLines(items, words, vms[i..], orderType, tracked)
            == MachineContribution(LineOf(items, words), vms[i], words.unknown, orderType, tracked)
               + MatchingLines(items, words, vms[i + 1..], orderType, tracked)
  {
    assert vms[i..][1..] == vms[i + 1..];
    var rest := AllListings(vms[i + 1..], words.unknown);
    var vm := vms[i];
    if vm.Some? && vm.value.sellOrders.Some? {
      var mine := MachineListings(LocationString(vm.value, words.unknown), vm.value.sellOrders.value);
      assert AllListings(vms[i..], words.unknown) == mine + rest;
      MatchingAppend(mine, rest, orderType, tracked);
      LinesAppend(LineOf(items, words), Matching(mine, orderType, tracked), Matching(rest, orderType, tracked));
    }
  }

  /** `collectMatchingOrders(rustplus, client, guildId, trackedItemIds, orderType)`:
      `vms` is `None` when there is no connection, no map markers, or the vending machines
      are not an array; `trackedItemIds` is `None` when absent. */
  method CollectMatchingOrders(items: Catalogue, words: LineWords, vms: Option<seq<Option<VendingMachine>>>,
                               trackedItemIds: Option<seq<string>>, orderType: string) returns (lines: seq<string>)
    ensures vms.None? ==> lines == []
    ensures vms.Some? ==>
      lines == MatchingLines(items, words, vms.value, orderType,
                             TrackedSet(if trackedItemIds.Some? then trackedItemIds.value else []))
  {
    if vms.None? {
      return [];
    }
    var tracked := BuildTrackedSet(if trackedItemIds.Some? then trackedItemIds.value else []);
    if tracked == {} {
      MatchingNothingTracked(AllListings(vms.value, words.unknown), orderType);
      return [];
    }
    lines := CollectMachines(items, words, vms.value, orderType, tracked);
  }

  /** The outer loop of `collectMatchingOrders`, over the vending machines. */
  method CollectMachines(items: Catalogue, words: LineWords, machines: seq<Option<VendingMachine>>,
                         orderType: string, tracked: set<int>) returns (lines: seq<string>)
    ensures lines == MatchingLines(items, words, machines, orderType, tracked)
  {
    lines := [];
    var i := 0;
    while i < |machines|
      invariant 0 <= i <= |machines|
      invariant lines + MatchingLines(items, words, machines[i..], orderType, tracked)
                == MatchingLines(items, words, machines, orderType, tracked)
    {
      var vm := machines[i];
      MachinesStep(items, words, machines, i, orderType, tracked);
      ghost var before := lines;
      ghost var contribution := MachineContribution(LineOf(items, words), vm, words.unknown, orderType, tracked);
      if vm.Some? && vm.value.sellOrders.Some? {
        var location := LocationString(vm.value, words.unknown);
        var own := CollectMachineLines(items, words, location, vm.value.sellOrders.value, orderType, tracked);
        lines := lines + own;
      }
      assert lines == before + contribution;
      AppendAssoc(before, contribution, MatchingLines(items, words, machines[i + 1..], orderType, tracked));
      i := i + 1;
    }
    assert machines[i..] == [];
  }

  /** What `collectMatchingOrders` promises: nothing without a tracked id; every line is
      the line of a listed order that is in stock and wanted, every such order has its line,
      and machine and order order are kept. */
  lemma CollectMatchingOrdersSpec(items: Catalogue, words: LineWords, vms: seq<Option<VendingMachine>>,
                                  orderType: string, tracked: set<int>)
    ensures tracked == {} ==> MatchingLines(items, words, vms, orderType, tracked) == []
    ensures var ms := Matching(AllListings(vms, words.unknown), orderType, tracked);
            && MatchingLines(items, words, vms, orderType, tracked) == Lines(LineOf(items, words), ms)
            && Subsequence(ms, AllListings(vms, words.unknown))
            && (forall l :: l in ms <==> l in AllListings(vms, words.unknown) && Wanted(l, orderType, tracked))
            && (forall l :: l in ms ==> l.order.amountInStock != 0)
  {
    if tracked == {} {
      MatchingNothingTracked(AllListings(vms, words.unknown), orderType);
    }
    MatchingKeepsOrder(AllListings(vms, words.unknown), orderType, tracked);
    MatchingMembers(AllListings(vms, words.unknown), orderType, tracked);
  }

  // ---------------------------------------------------------------------------------
  // formatDiffLines

  /** Sum over the lines of their length plus one for the newline. */
  function TotalLength(lines: seq<string>): nat
    decreases |lines|
  {
    if lines == [] then 0 else |lines[0]| + 1 + TotalLength(lines[1..])
  }

  /** The lines kept within `budget`: the loop stops at the first line that does not fit. */
  function Kept(lines: seq<string>, budget: int): seq<string>
    decreases |lines|
  {
    if lines == [] || |lines[0]| + 1 > budget then []
    else [lines[0]] + Kept(lines[1..], budget - |lines[0]| - 1)
  }

  /** The kept lines are the longest prefix of the input that fits the budget. */
  lemma {:induction false} KeptSpec(lines: seq<string>, budget: int)
    ensures var k := Kept(lines, budget);
            && |k| <= |lines| && k == lines[..|k|]
            && (k != [] ==> TotalLength(k) <= budget)
            && (|k| < |lines| ==> TotalLength(k) + |lines[|k|]| + 1 > budget)
    decreases |lines|
  {
    if lines != [] && |lines[0]| + 1 <= budget {
      var b := budget - |lines[0]| - 1;
      KeptSpec(lines[1..], b);
      var k := Kept(lines[1..], b);
      assert ([lines[0]] + k)[1..] == k;
      if |k| < |lines[1..]| {
        assert lines[|k| + 1] == lines[1..][|k|];
      }
    }
  }

  /** The lines between the fences: the kept lines, then "..." exactly when a line was
      dropped. */
  function DiffBody(lines: seq<string>, maxLength: int): seq<string> {
    var k := Kept(lines, maxLength);
    k + (if |k| < |lines| then ["..."] else [])
  }

  function Fenced(body: seq<string>): string {
    "```diff\n" + Join(body, "\n") + "\n```"
  }

  /** The default of `maxLength`. */
  const DefaultMaxLength := 4000

  /** `formatDiffLines(lines, maxLength)`; `None` for an argument that is not an array. */
  method FormatDiffLines(lines: Option<seq<string>>, maxLength: int) returns (r: Option<string>)
    ensures r.None? <==> lines.None? || lines.value == []
    ensures r.Some? ==> r.value == Fenced(DiffBody(lines.value, maxLength))
  {
    if lines.None? || |lines.value| == 0 {
      return None;
    }
    var input := lines.value;
    var diffLines: seq<string> := [];
    var currentLength := 0;
    var i := 0;
    while i < |input|
      invariant 0 <= i <= |input|
      invariant diffLines + Kept(input[i..], maxLength - currentLength) == Kept(input, maxLength)
      invariant |diffLines| == i
    {
      var lineLength := |input[i]| + 1;
      assert input[i..][1..] == input[i + 1..];
      if currentLength + lineLength > maxLength {
        diffLines := diffLines + ["..."];
        assert |Kept(input, maxLength)| == i < |input|;
        break;
      }
      diffLines := diffLines + [input[i]];
      currentLength := currentLength + lineLength;
      i := i + 1;
    }
    assert i == |input| ==> diffLines == Kept(input, maxLength) && |Kept(input, maxLength)| == |input|;
    assert diffLines == DiffBody(input, maxLength);
    r := Some(Fenced(diffLines));
  }

  /** The block starts with the opening fence and ends with the closing one. */
  lemma FencedShape(body: seq<string>)
    ensures StartsWith(Fenced(body), "```diff\n")
    ensures |Fenced(body)| >= 12 && Fenced(body)[|Fenced(body)| - 4..] == "\n```"
  {
    var s := Fenced(body);
    assert s[..8] == "```diff\n";
  }
}
