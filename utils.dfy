/** String and argument helpers of the bot: whitespace tokenising, splitting off a limited
    number of leading arguments, stripping invisible characters and decoding HTML entities. */
module Utils {
  import opened Common
  import opened Strings

  // ---------------------------------------------------------------------------------
  // parseArgs

  /** No whitespace at either end. */
  predicate Trimmed(s: string) {
    s == [] || (!IsWhitespace(s[0]) && !IsWhitespace(s[|s| - 1]))
  }

  /** Length of the leading run of non-whitespace characters. */
  function TokenLength(s: string): (k: nat)
    ensures k <= |s|
    ensures forall i :: 0 <= i < k ==> !IsWhitespace(s[i])
    ensures k < |s| ==> IsWhitespace(s[k])
  {
    if s == [] || IsWhitespace(s[0]) then 0 else 1 + TokenLength(s[1..])
  }

  /** The leading run of non-whitespace characters. */
  function FirstToken(s: string): (t: string)
    ensures NoWhitespace(t)
    ensures s != [] && !IsWhitespace(s[0]) ==> t != []
  {
    s[..TokenLength(s)]
  }

  /** `s.split(/\s+/)` for a string that does not start with whitespace. */
  function Words(s: string): (r: seq<string>)
    requires s == [] || !IsWhitespace(s[0])
    ensures r == [] <==> s == []
    decreases |s|
  {
    if s == [] then []
    else
      var t := FirstToken(s);
      [t] + Words(TrimStart(s[|t|..]))
  }

  /** Every word is non-empty and free of whitespace. */
  lemma {:induction false} WordsAreTokens(s: string)
    requires s == [] || !IsWhitespace(s[0])
    ensures forall i :: 0 <= i < |Words(s)| ==> Words(s)[i] != [] && NoWhitespace(Words(s)[i])
    decreases |s|
  {
    if s != [] {
      var t := FirstToken(s);
      WordsAreTokens(TrimStart(s[|t|..]));
    }
  }

  /** `parseArgs(str)`: the whitespace-separated words of `str`; none for a blank string. */
  function ParseArgs(s: string): (r: seq<string>)
    ensures r == [] <==> AllWhitespace(s)
    ensures forall i :: 0 <= i < |r| ==> r[i] != [] && NoWhitespace(r[i])
  {
    TrimEmptyIff(s);
    var input := Trim(s);
    WordsAreTokens(input);
    if input == [] then [] else Words(input)
  }

  /** Cutting the first word off a trimmed string leaves a trimmed string whose words are
      the remaining words. */
  lemma {:induction false} WordsStep(s: string)
    requires s != [] && Trimmed(s)
    ensures var t := FirstToken(s);
            var rest := Trim(s[|t|..]);
            && Words(s) == [t] + Words(rest)
            && Trimmed(rest)
  {
    var t := FirstToken(s);
    var x := s[|t|..];
    if x != [] {
      assert x[|x| - 1] == s[|s| - 1];
    }
    TrimStartKeepsEnd(x);
    TrimEndOfTrimmed(TrimStart(x));
  }

  /** Parsing a trimmed non-empty string is splitting it into words. */
  lemma ParseArgsTrimmed(s: string)
    requires s != [] && Trimmed(s)
    ensures ParseArgs(s) == Words(s)
  {
  }

  /** `seps[0] + words[0] + seps[1] + ... + words[n - 1] + seps[n]`. */
  function Interleave(seps: seq<string>, words: seq<string>): string
    requires |seps| == |words| + 1
    decreases |words|
  {
    if words == [] then seps[0] else seps[0] + words[0] + Interleave(seps[1..], words[1..])
  }

  /** `s` is the words separated by the runs `seps`: every run is whitespace only, the
      runs between two words are non-empty, and every word is non-empty and free of
      whitespace. This is what splitting on whitespace means, stated without a scan. */
  predicate SeparatedBy(s: string, words: seq<string>, seps: seq<string>) {
    && |seps| == |words| + 1
    && s == Interleave(seps, words)
    && (forall k :: 0 <= k < |seps| ==> AllWhitespace(seps[k]))
    && (forall k :: 0 < k < |words| ==> seps[k] != [])
    && (forall k :: 0 <= k < |words| ==> words[k] != [] && NoWhitespace(words[k]))
  }

  /** Text in front of the first run goes in front of the whole. */
  lemma {:induction false} InterleavePrepend(a: string, seps: seq<string>, words: seq<string>)
    requires |seps| == |words| + 1
    ensures Interleave([a + seps[0]] + seps[1..], words) == a + Interleave(seps, words)
  {
    var seps' := [a + seps[0]] + seps[1..];
    assert seps'[1..] == seps[1..];
  }

  /** Text after the last run goes after the whole. */
  lemma {:induction false} InterleaveAppend(seps: seq<string>, words: seq<string>, z: string)
    requires |seps| == |words| + 1
    ensures Interleave(seps[..|words|] + [seps[|words|] + z], words) == Interleave(seps, words) + z
    decreases |words|
  {
    var seps' := seps[..|words|] + [seps[|words|] + z];
    if words != [] {
      InterleaveAppend(seps[1..], words[1..], z);
      assert seps'[1..] == seps[1..][..|words[1..]|] + [seps[1..][|words[1..]|] + z];
    }
  }

  /** Whitespace added at both ends keeps a separation, with longer outer runs. */
  lemma SeparatedWiden(x: string, words: seq<string>, seps: seq<string>, a: string, z: string)
    requires SeparatedBy(x, words, seps) && AllWhitespace(a) && AllWhitespace(z)
    ensures exists seps2 :: SeparatedBy(a + x + z, words, seps2)
  {
    var n := |words|;
    var seps1 := [a + seps[0]] + seps[1..];
    InterleavePrepend(a, seps, words);
    assert forall k :: 1 <= k < |seps1| ==> seps1[k] == seps[k];
    var seps2 := seps1[..n] + [seps1[n] + z];
    InterleaveAppend(seps1, words, z);
    assert forall k :: 0 <= k < n ==> seps2[k] == seps1[k];
    assert SeparatedBy(a + x + z, words, seps2);
  }

  /** A word, a run and a separated rest whose first run is empty make a separated whole. */
  lemma SeparatedCons(t: string, r: string, y: string, words: seq<string>, seps: seq<string>)
    requires t != [] && NoWhitespace(t) && AllWhitespace(r)
    requires SeparatedBy(y, words, seps) && seps[0] == []
    requires words != [] ==> r != []
    ensures SeparatedBy(t + r + y, [t] + words, [[], r] + seps[1..])
  {
    var g := [[], r] + seps[1..];
    var g1 := [r + seps[0]] + seps[1..];
    assert r + seps[0] == r;
    assert g[1..] == g1;
    InterleavePrepend(r, seps, words);
    assert ([t] + words)[1..] == words;
    assert forall k :: 2 <= k < |g| ==> g[k] == seps[k - 1];
  }

  /** A string that starts with a word is that word, a run of whitespace and the rest,
      and its words are that word and the words of the rest. */
  lemma {:induction false} WordsSplit(x: string)
    requires x != [] && !IsWhitespace(x[0])
    ensures var t := FirstToken(x);
            var rest := x[|t|..];
            var k := LeadingSpace(rest);
            && t != [] && NoWhitespace(t) && AllWhitespace(rest[..k])
            && x == t + rest[..k] + TrimStart(rest)
            && Words(x) == [t] + Words(TrimStart(rest))
            && (TrimStart(rest) != [] ==> rest[..k] != [])
  {
    var t := FirstToken(x);
    var rest := x[|t|..];
    var k := LeadingSpace(rest);
    assert x == t + rest;
    assert TrimStart(rest) == rest[k..];
    assert rest == rest[..k] + rest[k..];
  }

  /** The words of a string that does not start with whitespace separate it, with an empty
      first run. */
  lemma {:induction false} WordsSeparated(x: string)
    requires x == [] || !IsWhitespace(x[0])
    ensures exists seps :: SeparatedBy(x, Words(x), seps) && seps[0] == []
    decreases |x|
  {
    if x == [] {
      assert SeparatedBy(x, [], [[]]);
    } else {
      var t := FirstToken(x);
      var rest := x[|t|..];
      var y := TrimStart(rest);
      var r := rest[..LeadingSpace(rest)];
      WordsSplit(x);
      WordsSeparated(y);
      var seps :| SeparatedBy(y, Words(y), seps) && seps[0] == [];
      SeparatedCons(t, r, y, Words(y), seps);
      assert SeparatedBy(x, Words(x), [[], r] + seps[1..]);
    }
  }

  /** `parseArgs(s)` separates `s`. */
  lemma ParseArgsSeparated(s: string)
    ensures exists seps :: SeparatedBy(s, ParseArgs(s), seps)
  {
    TrimEmptyIff(s);
    var input := Trim(s);
    var a := LeadingSpace(s);
    var head, tail := s[..a], s[a + |input|..];
    assert s == head + input + tail;
    if input == [] {
      assert ParseArgs(s) == [];
      assert SeparatedBy(s, [], [s]);
    } else {
      WordsSeparated(input);
      var seps :| SeparatedBy(input, Words(input), seps) && seps[0] == [];
      SeparatedWiden(input, Words(input), seps, head, tail);
      var seps2 :| SeparatedBy(head + input + tail, Words(input), seps2);
      assert SeparatedBy(s, ParseArgs(s), seps2);
    }
  }

  /** A text and its runs and words: after the first word comes either nothing or
      whitespace. */
  lemma AfterFirstWord(words: seq<string>, seps: seq<string>)
    requires |seps| == |words| + 1 && words != []
    requires forall k :: 0 <= k < |seps| ==> AllWhitespace(seps[k])
    requires forall k :: 0 < k < |words| ==> seps[k] != []
    ensures var tail := Interleave(seps[1..], words[1..]);
            tail == [] || IsWhitespace(tail[0])
  {
    if |words| > 1 {
      assert seps[1..][0] == seps[1];
    }
  }

  /** A separated string has no words exactly when it is blank. */
  lemma NoWordsIff(s: string, words: seq<string>, seps: seq<string>)
    requires SeparatedBy(s, words, seps)
    ensures words == [] <==> AllWhitespace(s)
  {
    if words != [] {
      assert s == seps[0] + words[0] + Interleave(seps[1..], words[1..]);
      assert s[|seps[0]|] == words[0][0];
    }
  }

  /** Two positions that both end a leading run of the same kind are equal. */
  lemma RunEndUnique(s: string, a: nat, b: nat, white: bool)
    requires a <= |s| && b <= |s|
    requires forall i :: 0 <= i < a ==> IsWhitespace(s[i]) == white
    requires a < |s| ==> IsWhitespace(s[a]) != white
    requires forall i :: 0 <= i < b ==> IsWhitespace(s[i]) == white
    requires b < |s| ==> IsWhitespace(s[b]) != white
    ensures a == b
  {
  }

  /** A string separates into only one list of words. */
  lemma {:induction false} SeparationUnique(s: string, w1: seq<string>, g1: seq<string>, w2: seq<string>,
                                            g2: seq<string>)
    requires SeparatedBy(s, w1, g1) && SeparatedBy(s, w2, g2)
    ensures w1 == w2
    decreases |w1|
  {
    if w1 == [] || w2 == [] {
      NoWordsIff(s, w1, g1);
      NoWordsIff(s, w2, g2);
    } else {
      var t1, t2 := Interleave(g1[1..], w1[1..]), Interleave(g2[1..], w2[1..]);
      assert s == g1[0] + (w1[0] + t1);
      assert s == g2[0] + (w2[0] + t2);
      var k1, k2 := |g1[0]|, |g2[0]|;
      assert s[k1] == w1[0][0] && s[k2] == w2[0][0];
      RunEndUnique(s, k1, k2, true);
      var u := s[k1..];
      assert u == w1[0] + t1 && u == w2[0] + t2;
      AfterFirstWord(w1, g1);
      AfterFirstWord(w2, g2);
      var n1, n2 := |w1[0]|, |w2[0]|;
      if n1 < |u| { assert u[n1] == t1[0]; }
      if n2 < |u| { assert u[n2] == t2[0]; }
      assert forall i :: 0 <= i < n1 ==> u[i] == w1[0][i];
      assert forall i :: 0 <= i < n2 ==> u[i] == w2[0][i];
      RunEndUnique(u, n1, n2, false);
      assert w1[0] == u[..n1] == w2[0];
      assert t1 == u[n1..] == t2;
      assert SeparatedBy(t1, w1[1..], g1[1..]);
      assert SeparatedBy(t1, w2[1..], g2[1..]);
      SeparationUnique(t1, w1[1..], g1[1..], w2[1..], g2[1..]);
      assert w1 == [w1[0]] + w1[1..];
      assert w2 == [w2[0]] + w2[1..];
    }
  }

  /** `parseArgs(s)` is exactly the list of words that `s` separates into: whitespace runs
      interleaved with non-empty whitespace-free words, non-empty runs between words. */
  lemma ParseArgsSpec(s: string, words: seq<string>)
    ensures ParseArgs(s) == words <==> exists seps :: SeparatedBy(s, words, seps)
  {
    ParseArgsSeparated(s);
    var seps0 :| SeparatedBy(s, ParseArgs(s), seps0);
    if seps :| SeparatedBy(s, words, seps) {
      SeparationUnique(s, words, seps, ParseArgs(s), seps0);
    }
  }

  // ---------------------------------------------------------------------------------
  // getArgs

  /** `s.slice(n)`: clamped to the end of the string. */
  function Slice(s: string, n: nat): string {
    if n <= |s| then s[n..] else []
  }

  /** The loop of `getArgs` from argument `args[0]` on, with `counter` the 1-based position
      of that argument: each argument is cut off the front of `remain`, and at position
      `limit` the remaining text is taken whole. */
  function LimitedArgs(args: seq<string>, remain: string, counter: int, limit: int): seq<string>
    decreases |args|
  {
    if args == [] then []
    else if counter == limit then [remain]
    else [args[0]] + LimitedArgs(args[1..], Trim(Slice(remain, |args[0]|)), counter + 1, limit)
  }

  /** `remain` is a trimmed text whose words are `args`: what the loop of `getArgs` keeps
      between iterations. */
  predicate HoldsWords(remain: string, args: seq<string>) {
    Trimmed(remain) && (remain == [] ==> args == []) && (remain != [] ==> Words(remain) == args)
  }

  /** One turn of the loop: the first word is the text's leading token, and what remains
      after cutting it off and trimming holds the other words. */
  lemma {:induction false} CutFirstArg(args: seq<string>, remain: string)
    requires HoldsWords(remain, args) && args != []
    ensures remain != [] && args[0] == FirstToken(remain)
    ensures HoldsWords(Trim(Slice(remain, |args[0]|)), args[1..])
  {
    WordsStep(remain);
    var t := FirstToken(remain);
    assert Slice(remain, |t|) == remain[|t|..];
  }

  /** The text the loop holds after cutting the first `n` arguments off `remain`. */
  function Cut(args: seq<string>, remain: string, n: nat): string
    requires n <= |args|
    decreases n
  {
    if n == 0 then remain else Cut(args[1..], Trim(Slice(remain, |args[0]|)), n - 1)
  }

  /** Cutting one more argument is one more turn of the loop. */
  lemma {:induction false} CutStep(args: seq<string>, remain: string, n: nat)
    requires n < |args|
    ensures Cut(args, remain, n + 1) == Trim(Slice(Cut(args, remain, n), |args[n]|))
    decreases n
  {
    if n > 0 {
      CutStep(args[1..], Trim(Slice(remain, |args[0]|)), n - 1);
    }
  }

  /** With fewer than `limit - counter + 1` arguments the loop returns them all; otherwise
      the first `limit - counter` of them followed by the text left after cutting those. */
  lemma {:induction false} LimitedArgsShape(args: seq<string>, remain: string, counter: int, limit: int)
    requires counter <= limit
    ensures |args| <= limit - counter ==> LimitedArgs(args, remain, counter, limit) == args
    ensures |args| > limit - counter ==>
              LimitedArgs(args, remain, counter, limit)
              == args[..limit - counter] + [Cut(args, remain, limit - counter)]
    decreases |args|
  {
    if args != [] && counter != limit {
      var rest := Trim(Slice(remain, |args[0]|));
      LimitedArgsShape(args[1..], rest, counter + 1, limit);
      assert args == [args[0]] + args[1..];
      if |args| > limit - counter {
        assert args[..limit - counter] == [args[0]] + args[1..][..limit - counter - 1];
      }
    }
  }

  /** Cutting words off a text that holds `args` leaves a text that holds the remaining
      arguments. */
  lemma {:induction false} CutLeavesWords(args: seq<string>, remain: string, n: nat)
    requires n <= |args| && HoldsWords(remain, args)
    ensures HoldsWords(Cut(args, remain, n), args[n..])
    decreases n
  {
    if n > 0 {
      var next := Trim(Slice(remain, |args[0]|));
      assert HoldsWords(next, args[1..]) by {
        CutFirstArg(args, remain);
      }
      CutLeavesWords(args[1..], next, n - 1);
      assert args[n..] == args[1..][n - 1..];
    }
  }

  /** Starting from the trimmed text whose words are `args`, the loop returns the first
      `limit - counter` words and then the rest of the text, itself trimmed, whose words
      are the remaining words; with too few words it returns all of them. */
  lemma LimitedArgsSplits(args: seq<string>, remain: string, counter: int, limit: int)
    requires HoldsWords(remain, args)
    requires 1 <= counter <= limit
    ensures var r := LimitedArgs(args, remain, counter, limit);
            var k := limit - counter;
            && (|args| <= k ==> r == args)
            && (|args| > k ==>
                  |r| == k + 1 && r[..k] == args[..k] && Trimmed(r[k]) && ParseArgs(r[k]) == args[k..])
  {
    var k := limit - counter;
    LimitedArgsShape(args, remain, counter, limit);
    if |args| > k {
      CutLeavesWords(args, remain, k);
      var rest := Cut(args, remain, k);
      var r := LimitedArgs(args, remain, counter, limit);
      assert r[k] == rest && r[..k] == args[..k];
      ParseArgsTrimmed(rest);
    }
  }

  /** `getArgs(str, n)` exactly as written: the text the loop cuts arguments from is `str`
      itself, not trimmed. */
  function GetArgsAsWritten(s: string, limit: Number): seq<string> {
    var args := ParseArgs(s);
    if !(limit.Finite? && limit.value >= 1) then args else LimitedArgs(args, s, 1, limit.value)
  }

  /** "a b" is already trimmed. */
  lemma TrimOfAB()
    ensures Trim("a b") == "a b"
  {
    assert LeadingSpace("a b") == 0 && TrailingStart("a b") == 3;
  }

  /** The words of "b". */
  lemma WordsOfB()
    ensures Words("b") == ["b"]
  {
    assert TokenLength("b") == 1 by {
      assert "b"[1..] == [];
    }
    assert FirstToken("b") == "b";
    assert "b"[1..] == [];
    assert TrimStart([]) == [];
  }

  /** The words of "a b". */
  lemma WordsOfAB()
    ensures Words("a b") == ["a", "b"]
  {
    assert TokenLength("a b") == 1 by {
      assert "a b"[1..] == " b";
    }
    assert FirstToken("a b") == "a" by {
      assert "a b"[..1] == "a";
    }
    assert "a b"[1..] == " b";
    assert TrimStart(" b") == "b" by {
      assert LeadingSpace(" b") == 1 by {
        assert " b"[1..] == "b";
      }
      assert " b"[1..] == "b";
    }
    WordsOfB();
  }

  /** " a b" trims to "a b". */
  lemma TrimOfIndented()
    ensures Trim(" a b") == "a b"
  {
    assert LeadingSpace(" a b") == 1 by {
      assert " a b"[1..] == "a b";
      assert LeadingSpace("a b") == 0;
    }
    assert " a b"[1..] == "a b";
    TrimOfAB();
  }

  /** The words of " a b". */
  lemma ParseArgsOfIndented()
    ensures ParseArgs(" a b") == ["a", "b"]
  {
    TrimOfIndented();
    WordsOfAB();
  }

  /** The loop of `getArgs` as written on " a b" with limit 2. */
  lemma LimitedArgsOfIndented()
    ensures LimitedArgs(["a", "b"], " a b", 1, 2) == ["a", "a b"]
  {
    assert Slice(" a b", 1) == "a b";
    TrimOfAB();
    assert ["a", "b"][1..] == ["b"];
    assert LimitedArgs(["b"], "a b", 2, 2) == ["a b"];
  }

  /** With leading whitespace the cut lands in the whitespace: the first word is kept in
      the remaining text, so the last element repeats it. */
  lemma GetArgsAsWrittenRepeatsWord()
    ensures GetArgsAsWritten(" a b", Finite(2)) == ["a", "a b"]
    ensures ParseArgs(" a b") == ["a", "b"]
  {
    ParseArgsOfIndented();
    LimitedArgsOfIndented();
  }

  /** The loop of `getArgs`: the first words up to the limit, and the text left after
      cutting them. */
  method TakeWords(args: seq<string>, text: string, n: int) returns (r: seq<string>, remain: string, i: nat)
    requires n >= 1
    ensures i == Min(|args|, n - 1)
    ensures r == args[..i] && remain == Cut(args, text, i)
  {
    r := [];
    remain := text;
    var counter := 1;
    i := 0;
    while i < |args| && counter != n
      invariant 0 <= i <= |args| && counter == i + 1 && counter <= n
      invariant r == args[..i] && remain == Cut(args, text, i)
    {
      CutStep(args, text, i);
      TakeNext(args, i);
      remain := Trim(Slice(remain, |args[i]|));
      r := r + [args[i]];
      counter := counter + 1;
      i := i + 1;
    }
  }

  /** What the loop leaves, with the rest of the text appended when it stopped at the limit,
      is what `LimitedArgs` describes. */
  lemma TakeWordsIsLimited(args: seq<string>, text: string, n: int, i: nat)
    requires n >= 1 && i == Min(|args|, n - 1)
    ensures i < |args| ==> args[..i] + [Cut(args, text, i)] == LimitedArgs(args, text, 1, n)
    ensures i >= |args| ==> args[..i] == LimitedArgs(args, text, 1, n)
  {
    LimitedArgsShape(args, text, 1, n);
    assert args[..|args|] == args;
  }

  /** The shape of the corrected result on the words of `s`. */
  lemma GetArgsShape(s: string, n: int)
    requires n >= 1
    ensures var args := ParseArgs(s);
            var r := LimitedArgs(args, Trim(s), 1, n);
            && (|args| < n ==> r == args)
            && (|args| >= n ==>
                  |r| == n && r[..n - 1] == args[..n - 1] && Trimmed(r[n - 1]) && ParseArgs(r[n - 1]) == args[n - 1..])
  {
    LimitedArgsSplits(ParseArgs(s), Trim(s), 1, n);
  }

  /** `getArgs(str, n)`, corrected to cut arguments from the trimmed text. `limit` is
      `Number.parseInt(n, 10)`. Without a usable limit it is `parseArgs`; otherwise the
      first `limit - 1` words are returned as they are and the last element is the rest of
      the text, whose words are exactly the remaining words. */
  method GetArgs(s: string, limit: Number) returns (r: seq<string>)
    ensures !(limit.Finite? && limit.value >= 1) ==> r == ParseArgs(s)
    ensures limit.Finite? && limit.value >= 1 ==> r == LimitedArgs(ParseArgs(s), Trim(s), 1, limit.value)
    ensures limit.Finite? && limit.value >= 1 && |ParseArgs(s)| < limit.value ==> r == ParseArgs(s)
    ensures limit.Finite? && limit.value >= 1 && |ParseArgs(s)| >= limit.value ==>
              && |r| == limit.value
              && r[..limit.value - 1] == ParseArgs(s)[..limit.value - 1]
              && Trimmed(r[limit.value - 1])
              && ParseArgs(r[limit.value - 1]) == ParseArgs(s)[limit.value - 1..]
  {
    var args := ParseArgs(s);
    if !(limit.Finite? && limit.value >= 1) {
      return args;
    }
    var n := limit.value;
    var remain, i;
    r, remain, i := TakeWords(args, Trim(s), n);
    TakeWordsIsLimited(args, Trim(s), n, i);
    if i < |args| {
      r := r + [remain];
    }
    GetArgsShape(s, n);
  }

  // ---------------------------------------------------------------------------------
  // removeInvisibleCharacters

  /** U+200B–U+200D and U+FEFF. */
  predicate ZeroWidth(c: char) {
    (0x200B <= c as int <= 0x200D) || c as int == 0xFEFF
  }

  /** U+0000–U+001F and U+007F–U+009F. */
  predicate ControlChar(c: char) {
    c as int <= 0x1F || (0x7F <= c as int <= 0x9F)
  }

  predicate Invisible(c: char) { ZeroWidth(c) || ControlChar(c) }

  /** `s` with every character that satisfies `drop` deleted and the others kept in
      their order: `s.replace(/[...]/g, '')` for the character class `drop`. */
  function Strip(s: string, drop: char -> bool): (r: string)
    ensures |r| <= |s|
    ensures forall i :: 0 <= i < |r| ==> !drop(r[i])
    ensures (forall i :: 0 <= i < |s| ==> !drop(s[i])) ==> r == s
  {
    if s == [] then [] else (if drop(s[0]) then [] else [s[0]]) + Strip(s[1..], drop)
  }

  /** Stripping works piece by piece, so the kept characters stay in their order. */
  lemma {:induction false} StripAppend(a: string, b: string, drop: char -> bool)
    ensures Strip(a + b, drop) == Strip(a, drop) + Strip(b, drop)
  {
    if a == [] {
      assert a + b == b;
    } else {
      assert (a + b)[0] == a[0] && (a + b)[1..] == a[1..] + b;
      StripAppend(a[1..], b, drop);
    }
  }

  /** Stripping zero-width characters and then control characters is stripping every
      invisible character in one pass. */
  lemma {:induction false} StripTwice(s: string)
    ensures Strip(Strip(s, ZeroWidth), ControlChar) == Strip(s, Invisible)
  {
    if s != [] {
      StripTwice(s[1..]);
      var head := if ZeroWidth(s[0]) then [] else [s[0]];
      StripAppend(head, Strip(s[1..], ZeroWidth), ControlChar);
      if !ZeroWidth(s[0]) {
        assert [s[0]][1..] == [];
      }
    }
  }

  /** `removeInvisibleCharacters(str)`: zero-width characters first, then control
      characters, are deleted. The result holds no invisible character, and it is the
      input with exactly the invisible characters taken out. */
  function RemoveInvisibleCharacters(s: string): (r: string)
    ensures forall i :: 0 <= i < |r| ==> !Invisible(r[i])
    ensures r == Strip(s, Invisible)
  {
    StripTwice(s);
    if s == [] then s else Strip(Strip(s, ZeroWidth), ControlChar)
  }
}
