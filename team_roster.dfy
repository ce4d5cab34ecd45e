/** The per-server team roster history: every Steam id ever seen in the team, with its
    latest name and the last time it was seen, listed sorted for the teams channel. */
module TeamRoster {
  import opened Common
  import opened Strings
  import opened Document

  /** A JavaScript value where the code expects a name: a string or anything else. */
  datatype NameValue = Str(s: string) | NotString

  /** `sanitizeName(name)`: the trimmed string, and '' for anything that is not a string.
      A string name loses exactly its leading and trailing whitespace. */
  function SanitizeName(name: NameValue): (r: string)
    ensures name.NotString? ==> r == []
    ensures r == [] || (!IsWhitespace(r[0]) && !IsWhitespace(r[|r| - 1]))
    ensures r == [] <==> name.NotString? || AllWhitespace(name.s)
    ensures name.Str? ==>
      var k := LeadingSpace(name.s);
      && k + |r| <= |name.s| && r == name.s[k..k + |r|]
      && AllWhitespace(name.s[..k]) && AllWhitespace(name.s[k + |r|..])
  {
    match name
    case Str(s) => TrimEmptyIff(s); Trim(s)
    case NotString => []
  }

  /** Sanitising a sanitised name changes nothing. */
  lemma SanitizeNameIdempotent(name: NameValue)
    ensures SanitizeName(Str(SanitizeName(name))) == SanitizeName(name)
  {
    if name.Str? {
      TrimIdempotent(name.s);
    }
  }

  // ---------------------------------------------------------------------------------
  // ensureTeamRoster

  datatype EnsuredRoster = EnsuredRoster(instance: Instance, roster: Roster, changed: bool)

  /** `ensureTeamRoster(instance, serverId)`: creates the history table and the server's
      roster when either is missing, and reports whether it created anything. */
  function EnsureTeamRoster(inst: Instance, serverId: ServerId): (r: EnsuredRoster)
    ensures r.changed <==> inst.teamRosterHistory.None? || serverId !in inst.teamRosterHistory.value
    ensures r.instance.teamRosterHistory.Some? && serverId in r.instance.teamRosterHistory.value
    ensures r.roster == r.instance.teamRosterHistory.value[serverId]
    ensures !r.changed ==> r.instance == inst
    ensures r.changed ==> r.roster == map[]
    ensures r.instance == inst.(teamRosterHistory := r.instance.teamRosterHistory)
    ensures inst.teamRosterHistory.Some? ==> forall k :: k in inst.teamRosterHistory.value ==>
              k in r.instance.teamRosterHistory.value
              && r.instance.teamRosterHistory.value[k] == inst.teamRosterHistory.value[k]
  {
    var history := if inst.teamRosterHistory.Some? then inst.teamRosterHistory.value else map[];
    if inst.teamRosterHistory.Some? && serverId in history then
      EnsuredRoster(inst, history[serverId], false)
    else
      var updated := history[serverId := map[]];
      EnsuredRoster(inst.(teamRosterHistory := Some(updated)), map[], true)
  }

  /** Ensuring twice creates nothing the second time. */
  lemma EnsureTeamRosterIdempotent(inst: Instance, serverId: ServerId)
    ensures var first := EnsureTeamRoster(inst, serverId);
            var second := EnsureTeamRoster(first.instance, serverId);
            !second.changed && second.instance == first.instance && second.roster == first.roster
  {
  }

  // ---------------------------------------------------------------------------------
  // upsertRosterPlayers

  /** A player handed to the upsert: its Steam id already converted to a string (`None`
      for null or undefined), its name and its `lastSeenAt` when that is a finite number. */
  datatype Player = Player(steamId: Option<string>, name: NameValue, lastSeenAt: Option<int>)

  /** `updateLastSeen` (true unless given) and `defaultLastSeenAt` when it is a finite number. */
  datatype UpsertOptions = UpsertOptions(updateLastSeen: bool, defaultLastSeenAt: Option<int>)

  /** JavaScript truthiness of a number or null. */
  predicate Truthy(v: Option<int>) {
    v.Some? && v.value != 0
  }

  /** Players without a usable Steam id are skipped. */
  predicate Skipped(p: Player) {
    p.steamId.None? || p.steamId.value == []
  }

  /** The `lastSeenAt` the upsert works with: the player's own, else the default (else
      `now`) when updating, and otherwise the existing entry's. */
  function ResolvedLastSeen(existing: Option<RosterEntry>, p: Player, opts: UpsertOptions, now: int): Option<int> {
    if opts.updateLastSeen then
      if p.lastSeenAt.Some? then p.lastSeenAt
      else if opts.defaultLastSeenAt.Some? then opts.defaultLastSeenAt
      else Some(now)
    else if existing.Some? && existing.value.lastSeenAt.Some? then existing.value.lastSeenAt
    else None
  }

  /** One iteration of the upsert loop: the roster after `p`, and whether it changed. */
  function UpsertOne(roster: Roster, p: Player, opts: UpsertOptions, now: int): (Roster, bool) {
    if Skipped(p) then (roster, false)
    else
      var steamId := p.steamId.value;
      var existing := if steamId in roster then Some(roster[steamId]) else None;
      var candidateName := SanitizeName(p.name);
      var resolvedName := if candidateName != [] then candidateName
                          else if existing.Some? then existing.value.name else [];
      var resolvedLastSeen := ResolvedLastSeen(existing, p, opts, now);
      if existing.None? then
        (roster[steamId := RosterEntry(steamId, resolvedName, resolvedLastSeen)], true)
      else
        var e := existing.value;
        var renamed := resolvedName != [] && resolvedName != e.name;
        var e1 := if renamed then e.(name := resolvedName) else e;
        var seen := opts.updateLastSeen && Truthy(resolvedLastSeen)
                    && (!Truthy(e.lastSeenAt) || resolvedLastSeen.value > e.lastSeenAt.value);
        var e2 := if seen then e1.(lastSeenAt := resolvedLastSeen) else e1;
        if renamed || seen then (roster[steamId := e2], true) else (roster, false)
  }

  /** What one player does to the roster: a skipped player changes nothing; a new Steam id
      is inserted; an existing entry keeps its Steam id, takes the new name only when it is
      non-empty, and has its `lastSeenAt` moved only forward (and only when updating). The
      flag is set exactly when the roster changed. */
  lemma UpsertOneSpec(roster: Roster, p: Player, opts: UpsertOptions, now: int)
    ensures var r := UpsertOne(roster, p, opts, now);
            r.1 <==> r.0 != roster
    ensures Skipped(p) ==> UpsertOne(roster, p, opts, now) == (roster, false)
    ensures !Skipped(p) ==>
              var r := UpsertOne(roster, p, opts, now);
              && p.steamId.value in r.0
              && forall k :: k != p.steamId.value ==>
                   (k in r.0 <==> k in roster) && (k in roster ==> r.0[k] == roster[k])
    ensures !Skipped(p) && p.steamId.value !in roster ==>
              var r := UpsertOne(roster, p, opts, now);
              r.1 && r.0[p.steamId.value]
                     == RosterEntry(p.steamId.value, SanitizeName(p.name), ResolvedLastSeen(None, p, opts, now))
    ensures !Skipped(p) && p.steamId.value in roster ==>
              var old_ := roster[p.steamId.value];
              var new_ := UpsertOne(roster, p, opts, now).0[p.steamId.value];
              && new_.steamId == old_.steamId
              && new_.name == (if SanitizeName(p.name) != [] then SanitizeName(p.name) else old_.name)
              && (opts.updateLastSeen && Truthy(old_.lastSeenAt) ==>
                    Truthy(new_.lastSeenAt) && new_.lastSeenAt.value >= old_.lastSeenAt.value)
              && (!opts.updateLastSeen ==> new_.lastSeenAt == old_.lastSeenAt)
  {
    if !Skipped(p) && p.steamId.value in roster {
      var e := roster[p.steamId.value];
      var r := UpsertOne(roster, p, opts, now);
      if r.1 {
        assert r.0[p.steamId.value] != e by {
          if r.0[p.steamId.value].name == e.name {
            assert r.0[p.steamId.value].lastSeenAt != e.lastSeenAt;
          }
        }
      }
    }
  }

  /** The whole upsert loop over `players`, as a fold; the flag is set when any step changed. */
  function UpsertAll(roster: Roster, players: seq<Player>, opts: UpsertOptions, now: int): (Roster, bool)
    decreases |players|
  {
    if players == [] then (roster, false)
    else
      var prev := UpsertAll(roster, players[..|players| - 1], opts, now);
      var step := UpsertOne(prev.0, players[|players| - 1], opts, now);
      (step.0, prev.1 || step.1)
  }

  /** When no change is reported the roster is exactly as before. */
  lemma {:induction false} UpsertAllUnchanged(roster: Roster, players: seq<Player>, opts: UpsertOptions, now: int)
    ensures !UpsertAll(roster, players, opts, now).1 ==> UpsertAll(roster, players, opts, now).0 == roster
    decreases |players|
  {
    if players != [] {
      var n := |players| - 1;
      UpsertAllUnchanged(roster, players[..n], opts, now);
      UpsertOneSpec(UpsertAll(roster, players[..n], opts, now).0, players[n], opts, now);
    }
  }

  /** Player `i` carries the usable Steam id `k`. */
  predicate Brings(players: seq<Player>, i: nat, k: SteamId)
    requires i < |players|
  {
    !Skipped(players[i]) && players[i].steamId.value == k
  }

  /** Every key present before is still present, and exactly the usable Steam ids of the
      players are added. */
  lemma {:induction false} UpsertAllKeys(roster: Roster, players: seq<Player>, opts: UpsertOptions, now: int, k: SteamId)
    ensures k in UpsertAll(roster, players, opts, now).0 <==>
      k in roster || exists i :: 0 <= i < |players| && Brings(players, i, k)
    decreases |players|
  {
    if players != [] {
      var n := |players| - 1;
      var init := players[..n];
      UpsertAllKeys(roster, init, opts, now, k);
      var prev := UpsertAll(roster, init, opts, now).0;
      UpsertOneSpec(prev, players[n], opts, now);
      assert UpsertAll(roster, players, opts, now).0 == UpsertOne(prev, players[n], opts, now).0;
      assert forall i :: 0 <= i < n ==> Brings(init, i, k) == Brings(players, i, k);
      if Brings(players, n, k) {
        assert k in UpsertAll(roster, players, opts, now).0;
      }
    }
  }

  /** A non-empty name is never erased, and `lastSeenAt` of an existing entry only moves
      forward when updating and is left alone otherwise. */
  lemma {:induction false} UpsertAllKeepsEntries(roster: Roster, players: seq<Player>, opts: UpsertOptions, now: int,
                                                 k: SteamId)
    requires k in roster
    ensures var after := UpsertAll(roster, players, opts, now).0;
            && k in after
            && after[k].steamId == roster[k].steamId
            && (roster[k].name != [] ==> after[k].name != [])
            && (opts.updateLastSeen && Truthy(roster[k].lastSeenAt) ==>
                  Truthy(after[k].lastSeenAt) && after[k].lastSeenAt.value >= roster[k].lastSeenAt.value)
            && (!opts.updateLastSeen ==> after[k].lastSeenAt == roster[k].lastSeenAt)
    decreases |players|
  {
    if players != [] {
      var n := |players| - 1;
      UpsertAllKeepsEntries(roster, players[..n], opts, now, k);
      UpsertOneSpec(UpsertAll(roster, players[..n], opts, now).0, players[n], opts, now);
    }
  }

  /** `upsertRosterPlayers(roster, players, options)` with `now` the current time: returns
      false and leaves a non-object roster alone; otherwise applies each player in turn. */
  method UpsertRosterPlayers(roster: Option<Roster>, players: seq<Player>, opts: UpsertOptions, now: int)
    returns (changed: bool, updated: Option<Roster>)
    ensures roster.None? ==> !changed && updated.None?
    ensures roster.Some? ==> updated == Some(UpsertAll(roster.value, players, opts, now).0)
    ensures roster.Some? ==> changed == UpsertAll(roster.value, players, opts, now).1
  {
    if roster.None? {
      return false, None;
    }
    var current := roster.value;
    changed := false;
    var i := 0;
    while i < |players|
      invariant 0 <= i <= |players|
      invariant (current, changed) == UpsertAll(roster.value, players[..i], opts, now)
    {
      assert players[..i + 1][..i] == players[..i];
      var step := UpsertOne(current, players[i], opts, now);
      current := step.0;
      changed := changed || step.1;
      i := i + 1;
    }
    assert players[..|players|] == players;
    updated := Some(current);
  }

  // ---------------------------------------------------------------------------------
  // sortRosterEntries and rosterToArray

  /** The comparator of `sortRosterEntries`: named entries first, by lower-cased name, ties
      and unnamed entries by Steam id. */
  function CompareRosterEntries(a: RosterEntry, b: RosterEntry): int {
    var nameA := Trim(a.name);
    var nameB := Trim(b.name);
    if nameA == [] && nameB == [] then CompareStrings(a.steamId, b.steamId)
    else if nameA == [] then 1
    else if nameB == [] then -1
    else if Lower(nameA) == Lower(nameB) then CompareStrings(a.steamId, b.steamId)
    else CompareStrings(Lower(nameA), Lower(nameB))
  }

  predicate InOrder(a: RosterEntry, b: RosterEntry) {
    CompareRosterEntries(a, b) <= 0
  }

  /** The comparator is a total order up to Steam id. */
  lemma InOrderTotal(a: RosterEntry, b: RosterEntry)
    ensures InOrder(a, b) || InOrder(b, a)
    ensures InOrder(a, b) && InOrder(b, a) ==> a.steamId == b.steamId
  {
    LessAsymmetric(a.steamId, b.steamId);
    LessAsymmetric(Lower(Trim(a.name)), Lower(Trim(b.name)));
  }

  lemma InOrderTransitive(a: RosterEntry, b: RosterEntry, c: RosterEntry)
    requires InOrder(a, b) && InOrder(b, c)
    ensures InOrder(a, c)
  {
    var na, nb, nc := Trim(a.name), Trim(b.name), Trim(c.name);
    if Less(a.steamId, b.steamId) && Less(b.steamId, c.steamId) {
      LessTransitive(a.steamId, b.steamId, c.steamId);
    }
    if na != [] && nb != [] && nc != [] && Less(Lower(na), Lower(nb)) && Less(Lower(nb), Lower(nc)) {
      LessTransitive(Lower(na), Lower(nb), Lower(nc));
    }
  }

  predicate SortedEntries(s: seq<RosterEntry>) {
    forall i, j :: 0 <= i < j < |s| ==> InOrder(s[i], s[j])
  }

  function InsertEntry(e: RosterEntry, s: seq<RosterEntry>): seq<RosterEntry> {
    if s == [] || InOrder(e, s[0]) then [e] + s else [s[0]] + InsertEntry(e, s[1..])
  }

  /** An entry in order before every element of a sorted sequence can head it. */
  lemma ConsSorted(x: RosterEntry, s: seq<RosterEntry>)
    requires SortedEntries(s)
    requires forall j :: 0 <= j < |s| ==> InOrder(x, s[j])
    ensures SortedEntries([x] + s)
  {
    var r := [x] + s;
    forall i, j | 0 <= i < j < |r|
      ensures InOrder(r[i], r[j])
    {
      assert r[j] == s[j - 1];
      if i > 0 {
        assert r[i] == s[i - 1];
      }
    }
  }

  /** An entry in order before `e` and before every element of `rest` is in order before
      every element of a permutation of `rest` plus `e`. */
  lemma {:induction false} BeforeAllInserted(h: RosterEntry, e: RosterEntry, rest: seq<RosterEntry>, r: seq<RosterEntry>)
    requires forall j :: 0 <= j < |rest| ==> InOrder(h, rest[j])
    requires InOrder(h, e)
    requires multiset(r) == multiset(rest) + multiset{e}
    ensures forall j :: 0 <= j < |r| ==> InOrder(h, r[j])
  {
    forall j | 0 <= j < |r|
      ensures InOrder(h, r[j])
    {
      assert r[j] in multiset(r);
      if r[j] != e {
        assert r[j] in multiset(rest);
        var k :| 0 <= k < |rest| && rest[k] == r[j];
      }
    }
  }

  /** An entry in order before the head of a sorted sequence is in order before all of it. */
  lemma BeforeHeadBeforeAll(e: RosterEntry, s: seq<RosterEntry>)
    requires SortedEntries(s) && s != [] && InOrder(e, s[0])
    ensures forall j :: 0 <= j < |s| ==> InOrder(e, s[j])
  {
    forall j | 0 < j < |s|
      ensures InOrder(e, s[j])
    {
      InOrderTransitive(e, s[0], s[j]);
    }
  }

  /** The head of a sorted sequence, in order before `e`, followed by a sorted permutation
      of its tail plus `e` is a sorted permutation of the sequence plus `e`. */
  lemma InsertAfterHead(e: RosterEntry, s: seq<RosterEntry>, r: seq<RosterEntry>)
    requires SortedEntries(s) && s != [] && InOrder(s[0], e)
    requires SortedEntries(r) && multiset(r) == multiset(s[1..]) + multiset{e}
    ensures SortedEntries([s[0]] + r)
    ensures multiset([s[0]] + r) == multiset(s) + multiset{e}
  {
    var rest := s[1..];
    assert s == [s[0]] + rest;
    assert forall j :: 0 <= j < |rest| ==> InOrder(s[0], rest[j]) by {
      assert forall j :: 0 <= j < |rest| ==> rest[j] == s[j + 1];
    }
    BeforeAllInserted(s[0], e, rest, r);
    ConsSorted(s[0], r);
  }

  lemma {:induction false} InsertEntrySorted(e: RosterEntry, s: seq<RosterEntry>)
    requires SortedEntries(s)
    ensures SortedEntries(InsertEntry(e, s))
    ensures multiset(InsertEntry(e, s)) == multiset(s) + multiset{e}
  {
    if s == [] {
    } else if InOrder(e, s[0]) {
      BeforeHeadBeforeAll(e, s);
      ConsSorted(e, s);
    } else {
      assert InOrder(s[0], e) by {
        InOrderTotal(e, s[0]);
      }
      InsertEntrySorted(e, s[1..]);
      InsertAfterHead(e, s, InsertEntry(e, s[1..]));
    }
  }

  /** `entries.sort(comparator)`: a sorted permutation of the entries. */
  function SortRosterEntries(s: seq<RosterEntry>): (r: seq<RosterEntry>)
    ensures SortedEntries(r)
    ensures multiset(r) == multiset(s)
  {
    if s == [] then []
    else
      var rest := SortRosterEntries(s[1..]);
      InsertEntrySorted(s[0], rest);
      assert s == [s[0]] + s[1..];
      InsertEntry(s[0], rest)
  }

  /** The head of a sorted sequence comes no later than any of its elements. */
  lemma SortedHead(a: seq<RosterEntry>, x: RosterEntry)
    requires SortedEntries(a) && x in a
    ensures InOrder(a[0], x) || a[0] == x
  {
    var k :| 0 <= k < |a| && a[k] == x;
  }

  /** No two entries share a Steam id. */
  predicate DistinctIds(s: seq<RosterEntry>) {
    forall i, j :: 0 <= i < j < |s| ==> s[i].steamId != s[j].steamId
  }

  /** Two sorted permutations of entries with distinct Steam ids start alike. */
  lemma SortedHeadsEqual(a: seq<RosterEntry>, b: seq<RosterEntry>)
    requires a != [] && SortedEntries(a) && SortedEntries(b) && multiset(a) == multiset(b) && DistinctIds(a)
    ensures b != [] && a[0] == b[0]
  {
    assert a[0] in multiset(b);
    assert b != [];
    assert b[0] in multiset(a);
    var k :| 0 <= k < |a| && a[k] == b[0];
    SortedHead(b, a[0]);
    InOrderTotal(a[0], b[0]);
    assert k == 0 || InOrder(a[0], a[k]);
  }

  lemma SortedTail(a: seq<RosterEntry>)
    requires a != [] && SortedEntries(a)
    ensures SortedEntries(a[1..])
  {
    forall i, j | 0 <= i < j < |a| - 1
      ensures InOrder(a[1..][i], a[1..][j])
    {
      assert a[1..][i] == a[i + 1] && a[1..][j] == a[j + 1];
    }
  }

  lemma DistinctTail(a: seq<RosterEntry>)
    requires a != [] && DistinctIds(a)
    ensures DistinctIds(a[1..])
  {
    forall i, j | 0 <= i < j < |a| - 1
      ensures a[1..][i].steamId != a[1..][j].steamId
    {
      assert a[1..][i] == a[i + 1] && a[1..][j] == a[j + 1];
    }
  }

  lemma SameTails<T>(a: seq<T>, b: seq<T>)
    requires a != [] && b != [] && a[0] == b[0] && multiset(a) == multiset(b)
    ensures multiset(a[1..]) == multiset(b[1..])
  {
    assert a == [a[0]] + a[1..] && b == [b[0]] + b[1..];
    assert multiset(a) == multiset{a[0]} + multiset(a[1..]);
    assert multiset(b) == multiset{b[0]} + multiset(b[1..]);
    assert multiset(a[1..]) == multiset(a) - multiset{a[0]};
    assert multiset(b[1..]) == multiset(b) - multiset{b[0]};
  }

  lemma SameHeadAndTail<T>(a: seq<T>, b: seq<T>)
    requires a != [] && b != [] && a[0] == b[0] && a[1..] == b[1..]
    ensures a == b
  {
    assert a == [a[0]] + a[1..] && b == [b[0]] + b[1..];
  }

  /** Entries with distinct Steam ids have one sorted order: whatever sorting algorithm the
      engine uses, its result is `SortRosterEntries`. */
  lemma {:induction false} SortedPermutationUnique(a: seq<RosterEntry>, b: seq<RosterEntry>)
    requires SortedEntries(a) && SortedEntries(b) && multiset(a) == multiset(b) && DistinctIds(a)
    ensures a == b
    decreases |a|
  {
    if a == [] {
      assert |b| == |multiset(b)| == 0;
    } else {
      SortedHeadsEqual(a, b);
      SameTails(a, b);
      SortedTail(a);
      SortedTail(b);
      DistinctTail(a);
      SortedPermutationUnique(a[1..], b[1..]);
      SameHeadAndTail(a, b);
    }
  }

  /** The entry `rosterToArray` lists for key `steamId`. */
  function ExportedEntry(steamId: SteamId, e: RosterEntry): RosterEntry {
    RosterEntry(steamId, Trim(e.name), e.lastSeenAt)
  }

  /** The entries in key order before sorting; empty keys are skipped. */
  function Exported(roster: Roster, order: seq<SteamId>): seq<RosterEntry>
    requires forall k :: k in order ==> k in roster
  {
    if order == [] then []
    else
      var k := order[|order| - 1];
      Exported(roster, order[..|order| - 1]) + (if k == [] then [] else [ExportedEntry(k, roster[k])])
  }

  lemma {:induction false} ExportedEntries(roster: Roster, order: seq<SteamId>)
    requires forall k :: k in order ==> k in roster
    requires NoDuplicates(order)
    ensures forall e :: e in Exported(roster, order) <==>
      e.steamId in order && e.steamId != [] && e == ExportedEntry(e.steamId, roster[e.steamId])
    ensures NoDuplicates(Exported(roster, order))
  {
    if order != [] {
      var init := order[..|order| - 1];
      assert forall k :: k in init ==> k in order;
      ExportedEntries(roster, init);
      assert order == init + [order[|order| - 1]];
    }
  }

  /** A permutation of a sequence without duplicates has the same elements and no
      duplicates either. */
  lemma PermutedEntries(listed: seq<RosterEntry>, entries: seq<RosterEntry>)
    requires multiset(entries) == multiset(listed)
    requires NoDuplicates(listed)
    ensures forall e :: e in entries <==> e in listed
    ensures NoDuplicates(entries)
  {
    NoDuplicatesPermutation(entries, listed);
    forall e | e in entries
      ensures e in listed
    {
      assert e in multiset(listed);
    }
    forall e | e in listed
      ensures e in entries
    {
      assert e in multiset(entries);
    }
  }

  /** Distinct exported entries have distinct Steam ids. */
  lemma ExportedDistinctIds(roster: Roster, entries: seq<RosterEntry>)
    requires NoDuplicates(entries)
    requires forall e :: e in entries ==> e.steamId in roster && e == ExportedEntry(e.steamId, roster[e.steamId])
    ensures DistinctIds(entries)
  {
    forall i, j | 0 <= i < j < |entries|
      ensures entries[i].steamId != entries[j].steamId
    {
      assert entries[i] in entries && entries[j] in entries;
    }
  }

  /** In a sorted sequence with distinct Steam ids, named entries come first and unnamed
      ones are in Steam-id order. */
  lemma SortedNamedFirst(entries: seq<RosterEntry>)
    requires SortedEntries(entries)
    requires DistinctIds(entries)
    ensures forall i, j :: 0 <= i < j < |entries| && Trim(entries[j].name) != [] ==> Trim(entries[i].name) != []
    ensures forall i, j :: 0 <= i < j < |entries| && Trim(entries[i].name) == [] && Trim(entries[j].name) == [] ==>
              Less(entries[i].steamId, entries[j].steamId)
  {
    forall i, j | 0 <= i < j < |entries|
      ensures Trim(entries[j].name) != [] ==> Trim(entries[i].name) != []
      ensures Trim(entries[i].name) == [] && Trim(entries[j].name) == [] ==>
                Less(entries[i].steamId, entries[j].steamId)
    {
      assert InOrder(entries[i], entries[j]);
    }
  }

  /** `rosterToArray(roster)`: one entry per non-empty key (its name sanitised), sorted. A
      missing roster lists nothing. `order` is the roster's key order. */
  method RosterToArray(roster: Option<Roster>, order: seq<SteamId>) returns (entries: seq<RosterEntry>)
    requires roster.Some? ==> KeyOrder(order, roster.value)
    ensures roster.None? ==> entries == []
    ensures roster.Some? ==> forall e :: e in entries <==>
              e.steamId in roster.value && e.steamId != [] && e == ExportedEntry(e.steamId, roster.value[e.steamId])
    ensures NoDuplicates(entries)
    ensures SortedEntries(entries)
    ensures forall i, j :: 0 <= i < j < |entries| && Trim(entries[j].name) != [] ==> Trim(entries[i].name) != []
    ensures forall i, j :: 0 <= i < j < |entries| && Trim(entries[i].name) == [] && Trim(entries[j].name) == [] ==>
              Less(entries[i].steamId, entries[j].steamId)
  {
    if roster.None? {
      return [];
    }
    var r := roster.value;
    var listed: seq<RosterEntry> := [];
    var i := 0;
    while i < |order|
      invariant 0 <= i <= |order|
      invariant listed == Exported(r, order[..i])
    {
      assert order[..i + 1][..i] == order[..i];
      if order[i] != [] {
        listed := listed + [ExportedEntry(order[i], r[order[i]])];
      }
      i := i + 1;
    }
    assert order[..|order|] == order;
    ExportedEntries(r, order);
    entries := SortRosterEntries(listed);
    PermutedEntries(listed, entries);
    ExportedDistinctIds(r, entries);
    SortedNamedFirst(entries);
  }
}
