/** The `group` subcommand of `/tracker`, handled by `trackerInfoHandler`: which tracker the
    `tracker` option names. An exact tracker id wins; otherwise a single case-blind exact
    name match; otherwise a single case-blind substring match. Several matches at a stage
    are an ambiguity error. */
module TrackerLookup {
  import opened Common
  import opened Strings
  import opened Document

  /** The trackers of a guild in the object's order: id and tracker. */
  type Entries = seq<(string, Tracker)>

  datatype Lookup =
    | NoTrackers
    | MultipleMatches(names: seq<string>)
    | NotFound
    | Found(trackerId: string)

  /** The tracker ids, in order. */
  function Keys(entries: Entries): (r: seq<string>)
    ensures |r| == |entries|
    ensures forall i :: 0 <= i < |entries| ==> r[i] == entries[i].0
    decreases |entries|
  {
    if entries == [] then [] else [entries[0].0] + Keys(entries[1..])
  }

  /** Whether a tracker's name matches the lower-cased parameter: equal when `exact`,
      containing it otherwise, both after lower-casing the name. */
  predicate NameMatches(t: Tracker, paramLower: string, exact: bool) {
    if exact then Lower(t.name) == paramLower else Contains(Lower(t.name), paramLower)
  }

  /** `trackerEntries.filter(...)`: the entries whose name matches, in order. */
  function Matches(entries: Entries, paramLower: string, exact: bool): (r: Entries)
    decreases |entries|
  {
    if entries == [] then []
    else (if NameMatches(entries[0].1, paramLower, exact) then [entries[0]] else [])
         + Matches(entries[1..], paramLower, exact)
  }

  /** The matches are exactly the matching entries, in their order. */
  lemma {:induction false} MatchesMembers(entries: Entries, paramLower: string, exact: bool)
    ensures forall e :: e in Matches(entries, paramLower, exact) <==> e in entries && NameMatches(e.1, paramLower, exact)
    decreases |entries|
  {
    if entries != [] {
      MatchesMembers(entries[1..], paramLower, exact);
      assert forall e :: e in entries <==> e == entries[0] || e in entries[1..];
    }
  }

  /** An exact name match is also a substring match. */
  lemma {:induction false} ExactMatchesArePartial(entries: Entries, paramLower: string)
    ensures forall e :: e in Matches(entries, paramLower, true) ==> e in Matches(entries, paramLower, false)
  {
    MatchesMembers(entries, paramLower, true);
    MatchesMembers(entries, paramLower, false);
    forall e | e in Matches(entries, paramLower, true)
      ensures e in Matches(entries, paramLower, false)
    {
      assert StartsWith(Lower(e.1.name), paramLower);
    }
  }

  /** The names shown in an ambiguity error. */
  function TrackerNames(entries: Entries): (r: seq<string>)
    ensures |r| == |entries|
    ensures forall i :: 0 <= i < |entries| ==> r[i] == entries[i].1.name
    decreases |entries|
  {
    if entries == [] then [] else [entries[0].1.name] + TrackerNames(entries[1..])
  }

  /** `trackerInfoHandler(client, interaction)` up to the reply: `instance` is `None` when
      the guild has no document. */
  method TrackerInfo(instance: Option<Instance>, param: string) returns (r: Lookup)
    ensures instance.None? || instance.value.trackers.None? || instance.value.trackers.value == [] ==>
      r == NoTrackers
    ensures instance.Some? && instance.value.trackers.Some? && instance.value.trackers.value != [] ==>
      var entries := instance.value.trackers.value;
      var exact := Matches(entries, Lower(param), true);
      var partial := Matches(entries, Lower(param), false);
      && (param in Keys(entries) ==> r == Found(param))
      && (param !in Keys(entries) && |exact| == 1 ==> r == Found(exact[0].0))
      && (param !in Keys(entries) && |exact| > 1 ==> r == MultipleMatches(TrackerNames(exact)))
      && (param !in Keys(entries) && exact == [] && |partial| == 1 ==> r == Found(partial[0].0))
      && (param !in Keys(entries) && exact == [] && |partial| > 1 ==> r == MultipleMatches(TrackerNames(partial)))
      && (param !in Keys(entries) && exact == [] && partial == [] ==> r == NotFound)
    ensures r.Found? ==> instance.Some? && instance.value.trackers.Some?
                         && r.trackerId in Keys(instance.value.trackers.value)
  {
    if instance.None? || instance.value.trackers.None? || |instance.value.trackers.value| == 0 {
      return NoTrackers;
    }
    var trackers := instance.value.trackers.value;
    var trackerId: Option<string> := None;
    if param in Keys(trackers) {
      trackerId := Some(param);
    }
    var paramLower := Lower(param);
    TrackerLookupSpec(trackers, param);
    if trackerId.None? {
      var exactMatches := Matches(trackers, paramLower, true);
      if |exactMatches| == 1 {
        assert exactMatches[0] in exactMatches;
        trackerId := Some(exactMatches[0].0);
      } else if |exactMatches| > 1 {
        return MultipleMatches(TrackerNames(exactMatches));
      }
    }
    if trackerId.None? {
      var partialMatches := Matches(trackers, paramLower, false);
      if |partialMatches| == 1 {
        assert partialMatches[0] in partialMatches;
        trackerId := Some(partialMatches[0].0);
      } else if |partialMatches| > 1 {
        return MultipleMatches(TrackerNames(partialMatches));
      }
    }
    if trackerId.None? {
      return NotFound;
    }
    r := Found(trackerId.value);
  }

  /** What the stages rely on: a single exact match names a tracker whose name equals the
      parameter case-blind, a single substring match one whose name contains it, every
      match is a tracker id, and without substring matches there are no exact ones. */
  lemma TrackerLookupSpec(entries: Entries, param: string)
    ensures var exact := Matches(entries, Lower(param), true);
            |exact| == 1 ==> exact[0] in entries && Lower(exact[0].1.name) == Lower(param)
    ensures var partial := Matches(entries, Lower(param), false);
            |partial| == 1 ==> partial[0] in entries && Contains(Lower(partial[0].1.name), Lower(param))
    ensures forall e :: e in Matches(entries, Lower(param), false) ==> e.0 in Keys(entries)
    ensures forall e :: e in Matches(entries, Lower(param), true) ==> e.0 in Keys(entries)
    ensures Matches(entries, Lower(param), false) == [] ==> Matches(entries, Lower(param), true) == []
  {
    MatchesMembers(entries, Lower(param), true);
    MatchesMembers(entries, Lower(param), false);
    ExactMatchesArePartial(entries, Lower(param));
    var exact := Matches(entries, Lower(param), true);
    var partial := Matches(entries, Lower(param), false);
    if |exact| == 1 {
      assert exact[0] in exact;
    }
    if |partial| == 1 {
      assert partial[0] in partial;
    }
    if exact != [] {
      assert exact[0] in exact;
    }
    forall e | e in entries
      ensures e.0 in Keys(entries)
    {
      var i :| 0 <= i < |entries| && entries[i] == e;
      assert Keys(entries)[i] == e.0;
    }
  }
}
