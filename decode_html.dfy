/** `decodeHtml` of the utility module: every entry of the reserved-symbol table, in the
    table's order, is replaced throughout the text by `split(key).join(value)`. */
module HtmlDecode {
  import opened Common
  import opened Strings

  /** `s.split(key)`: the pieces between the leftmost non-overlapping occurrences of `key`;
      with an empty `key`, the single characters. */
  function Split(s: string, key: string): (r: seq<string>)
    ensures key != [] ==> |r| >= 1
    decreases |s|
  {
    if key == [] then seq(|s|, i requires 0 <= i < |s| => [s[i]])
    else if |s| < |key| then [s]
    else if StartsWith(s, key) then [[]] + Split(s[|key|..], key)
    else
      var rest := Split(s[1..], key);
      [[s[0]] + rest[0]] + rest[1..]
  }

  /** `s.split(key).join(value)`. */
  function ReplaceAll(s: string, key: string, value: string): string {
    Join(Split(s, key), value)
  }

  /** Extending the first piece extends the joined text at its front. */
  lemma JoinExtendFirst(c: char, parts: seq<string>, sep: string)
    requires parts != []
    ensures Join([[c] + parts[0]] + parts[1..], sep) == [c] + Join(parts, sep)
  {
    var q := [[c] + parts[0]] + parts[1..];
    if |parts| > 1 {
      assert q[1..] == parts[1..];
    }
  }

  /** Splitting at a non-empty key and joining with the key gives the text back. */
  lemma {:induction false} SplitJoinNonEmpty(s: string, key: string)
    requires key != []
    ensures Join(Split(s, key), key) == s
    decreases |s|
  {
    if |s| >= |key| {
      if StartsWith(s, key) {
        var rest := Split(s[|key|..], key);
        SplitJoinNonEmpty(s[|key|..], key);
        assert ([[]] + rest)[1..] == rest;
        assert s == key + s[|key|..];
      } else {
        SplitJoinNonEmpty(s[1..], key);
        JoinExtendFirst(s[0], Split(s[1..], key), key);
        assert s == [s[0]] + s[1..];
      }
    }
  }

  /** Splitting into characters and joining with nothing gives the text back. */
  lemma {:induction false} SplitJoinChars(s: string)
    ensures Join(Split(s, []), []) == s
    decreases |s|
  {
    if |s| > 1 {
      SplitJoinChars(s[1..]);
      assert Split(s, [])[1..] == Split(s[1..], []);
      assert s == [s[0]] + s[1..];
    }
  }

  /** `s.split(key).join(key) == s`: replacing a key by itself changes nothing. */
  lemma SplitJoinRoundTrip(s: string, key: string)
    ensures ReplaceAll(s, key, key) == s
  {
    if key == [] {
      SplitJoinChars(s);
    } else {
      SplitJoinNonEmpty(s, key);
    }
  }

  /** A non-empty key that does not occur leaves a single piece: the text itself. */
  lemma {:induction false} SplitAbsent(s: string, key: string)
    requires key != [] && !Contains(s, key)
    ensures Split(s, key) == [s]
    decreases |s|
  {
    if |s| >= |key| {
      SplitAbsent(s[1..], key);
      assert s == [s[0]] + s[1..];
    }
  }

  /** One entry of the loop: the text is rewritten only when it contains the key. */
  function DecodeStep(s: string, entry: (string, string)): string {
    if Contains(s, entry.0) then ReplaceAll(s, entry.0, entry.1) else s
  }

  /** The `includes` test is only a shortcut: for a non-empty key, replacing a key that
      does not occur changes nothing either. */
  lemma DecodeStepIsReplaceAll(s: string, entry: (string, string))
    requires entry.0 != []
    ensures DecodeStep(s, entry) == ReplaceAll(s, entry.0, entry.1)
  {
    if !Contains(s, entry.0) {
      SplitAbsent(s, entry.0);
    }
  }

  /** The loop of `decodeHtml` over the table entries from the first on. */
  function Decode(s: string, table: seq<(string, string)>): string
    decreases |table|
  {
    if table == [] then s else Decode(DecodeStep(s, table[0]), table[1..])
  }

  /** A text in which no key of the table occurs is decoded to itself. */
  lemma {:induction false} DecodeUnchanged(s: string, table: seq<(string, string)>)
    requires forall k :: 0 <= k < |table| ==> !Contains(s, table[k].0)
    ensures Decode(s, table) == s
    decreases |table|
  {
    if table != [] {
      assert DecodeStep(s, table[0]) == s;
      assert forall k :: 0 <= k < |table[1..]| ==> table[1..][k] == table[k + 1];
      DecodeUnchanged(s, table[1..]);
    }
  }

  /** Entries that map a key to itself have no effect. */
  lemma {:induction false} DecodeIdentityEntries(s: string, table: seq<(string, string)>)
    requires forall k :: 0 <= k < |table| ==> table[k].0 == table[k].1
    ensures Decode(s, table) == s
    decreases |table|
  {
    if table != [] {
      SplitJoinRoundTrip(s, table[0].0);
      assert forall k :: 0 <= k < |table[1..]| ==> table[1..][k] == table[k + 1];
      DecodeIdentityEntries(s, table[1..]);
    }
  }

  /** `decodeHtml(str)` with `table` the entries of the reserved-symbol table in order. */
  method DecodeHtml(s: string, table: seq<(string, string)>) returns (decoded: string)
    ensures decoded == Decode(s, table)
    ensures (forall k :: 0 <= k < |table| ==> !Contains(s, table[k].0)) ==> decoded == s
  {
    decoded := s;
    var i := 0;
    while i < |table|
      invariant 0 <= i <= |table|
      invariant Decode(decoded, table[i..]) == Decode(s, table)
    {
      var (key, value) := table[i];
      assert table[i..][1..] == table[i + 1..];
      if Contains(decoded, key) {
        decoded := ReplaceAll(decoded, key, value);
      }
      i := i + 1;
    }
    if forall k :: 0 <= k < |table| ==> !Contains(s, table[k].0) {
      DecodeUnchanged(s, table);
    }
  }
}
