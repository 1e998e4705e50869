/**
 * The name logic of the save manager: which file names clean calls bad or
 * orphaned, the "_vN" names importAction suggests and the rename prompt it
 * runs, the name newGame picks and asks for, the character randomAlphNum
 * makes of its draw, and the sound-file extensions saveSound accepts and
 * readSound looks for. Directory listings, random draws and the files
 * themselves are parameters.
 */
module Names {
  import opened Wrappers
  import opened Text
  import opened Scenes
  import opened Games

  const StateSuffix: string := "_state.txt"
  const ZipSuffix: string := ".zip"

  /** Names starting with "." are skipped by every listing. */
  predicate Hidden(name: string) {
    StartsWith(name, ".")
  }

  // ------------------------------------------------------------------ clean

  /** The visible names without the suffix. */
  function Bad(names: set<string>, suffix: string): set<string> {
    set n | n in names && !Hidden(n) && !EndsWith(n, suffix)
  }

  /** The visible names with the suffix. */
  function Good(names: set<string>, suffix: string): set<string> {
    set n | n in names && !Hidden(n) && EndsWith(n, suffix)
  }

  /** The adventure a state file "X_state.txt" belongs to: X. */
  function StateOwner(state: string): string
    requires EndsWith(state, StateSuffix)
  {
    state[..|state| - |StateSuffix|]
  }

  /** The good state files whose adventure is not among the good adventure files. */
  function Orphans(states: set<string>, adventures: set<string>): set<string> {
    set s | s in states && !Hidden(s) && EndsWith(s, StateSuffix) && StateOwner(s) + ZipSuffix !in Good(adventures, ZipSuffix)
  }

  /** What clean offers to delete. */
  datatype Cleanup = Cleanup(badStates: set<string>, badAdventures: set<string>, orphans: set<string>)

  /** One classification loop of clean: each visible name goes to bad or good by its suffix. */
  method Sort(names: set<string>, suffix: string) returns (bad: set<string>, good: set<string>)
    ensures bad == Bad(names, suffix) && good == Good(names, suffix)
  {
    bad, good := {}, {};
    var left := names;
    while left != {}
      invariant left <= names
      invariant bad == Bad(names - left, suffix) && good == Good(names - left, suffix)
      decreases left
    {
      var n :| n in left;
      if !Hidden(n) {
        if !EndsWith(n, suffix) {
          bad := bad + {n};
        } else {
          good := good + {n};
        }
      }
      assert names - (left - {n}) == (names - left) + {n};
      left := left - {n};
    }
    assert names - left == names;
  }

  /** clean's three loops over the state and adventure directories. */
  method Classify(states: set<string>, adventures: set<string>) returns (c: Cleanup)
    ensures c == Cleanup(Bad(states, StateSuffix), Bad(adventures, ZipSuffix), Orphans(states, adventures))
  {
    var badStates, goodStates := Sort(states, StateSuffix);
    var badAdventures, goodAdventures := Sort(adventures, ZipSuffix);
    var orphans: set<string> := {};
    var left := goodStates;
    while left != {}
      invariant left <= goodStates
      invariant orphans == set s | s in goodStates - left && StateOwner(s) + ZipSuffix !in goodAdventures
      decreases left
    {
      var s :| s in left;
      if StateOwner(s) + ZipSuffix !in goodAdventures {
        orphans := orphans + {s};
      }
      assert goodStates - (left - {s}) == (goodStates - left) + {s};
      left := left - {s};
    }
    assert goodStates - left == goodStates;
    c := Cleanup(badStates, badAdventures, orphans);
  }

  /** A visible state file "X_state.txt" is an orphan exactly when "X.zip" is not a visible adventure file. */
  lemma OrphanIff(states: set<string>, adventures: set<string>, x: string)
    requires x + StateSuffix in states && !Hidden(x + StateSuffix)
    ensures x + StateSuffix in Orphans(states, adventures) <==> x + ZipSuffix !in adventures || Hidden(x + ZipSuffix)
  {
    var s := x + StateSuffix;
    assert s[|s| - |StateSuffix|..] == StateSuffix;
    assert StateOwner(s) == x;
    assert (x + ZipSuffix)[|x + ZipSuffix| - |ZipSuffix|..] == ZipSuffix;
  }

  /** Every visible name is either bad or good, never both. */
  lemma SortPartitions(names: set<string>, suffix: string, n: string)
    requires n in names && !Hidden(n)
    ensures (n in Bad(names, suffix)) != (n in Good(names, suffix))
  {
  }

  // ------------------------------------------------------- import: versions

  /** The characters Java's "." does not match: the line terminators. */
  predicate LineTerminator(c: char) {
    c == '\n' || c == '\r' || c == '\U{85}' || c == '\U{2028}' || c == '\U{2029}'
  }

  predicate NoLineTerminator(s: string) {
    forall k :: 0 <= k < |s| ==> !LineTerminator(s[k])
  }

  /** The length of the run of digits that ends s. */
  function DigitRun(s: string): (n: nat)
    ensures n <= |s| && AllDigits(s[|s| - n..])
    ensures n < |s| ==> !IsDigit(s[|s| - n - 1])
  {
    if s != [] && IsDigit(s[|s| - 1]) then
      var n := 1 + DigitRun(s[..|s| - 1]);
      assert forall k :: |s| - n <= k < |s| - 1 ==> s[k] == s[..|s| - 1][k];
      n
    else 0
  }

  /** A digit run after a non-digit is exactly the digits. */
  lemma {:induction false} DigitRunAfter(prefix: string, digits: string)
    requires prefix != [] && !IsDigit(prefix[|prefix| - 1]) && AllDigits(digits)
    ensures DigitRun(prefix + digits) == |digits|
  {
    var s := prefix + digits;
    if digits == [] {
      assert s == prefix;
    } else {
      assert s[..|s| - 1] == prefix + digits[..|digits| - 1];
      DigitRunAfter(prefix, digits[..|digits| - 1]);
    }
  }

  /**
   * The pattern ".*_v(\d+)$" against the whole name: the stem before the
   * last "_v" and the digits after it, when all that follow it are digits.
   */
  function VersionSplit(base: string): (r: Option<(string, string)>)
    ensures r.Some? ==> base == r.value.0 + "_v" + r.value.1 && r.value.1 != []
                        && AllDigits(r.value.1) && NoLineTerminator(r.value.0)
  {
    var n := DigitRun(base);
    var cut := |base| - n;
    if n > 0 && cut >= 2 && base[cut - 2..cut] == "_v" && NoLineTerminator(base[..cut - 2]) then
      assert base == base[..cut - 2] + base[cut - 2..cut] + base[cut..];
      Some((base[..cut - 2], base[cut..]))
    else None
  }

  /** Every name of the shape the pattern describes is split at its own "_v". */
  lemma VersionSplitMatches(stem: string, digits: string)
    requires digits != [] && AllDigits(digits) && NoLineTerminator(stem)
    ensures VersionSplit(stem + "_v" + digits) == Some((stem, digits))
  {
    var base := stem + "_v" + digits;
    DigitRunAfter(stem + "_v", digits);
    var cut := |base| - |digits|;
    assert base[..cut - 2] == stem && base[cut - 2..cut] == "_v" && base[cut..] == digits;
  }

  /**
   * The stem and the number that versions count on from (lines 747-758):
   * only a name already taken is split; None is the NumberFormatException
   * of a version number beyond the int range.
   */
  function VersionStart(base: string, fileNames: set<string>): (r: Option<(string, nat)>)
    ensures r.None? ==> base + ZipSuffix in fileNames && VersionSplit(base).Some?
    ensures base + ZipSuffix !in fileNames ==> r == Some((base, 1))
  {
    if base + ZipSuffix !in fileNames then Some((base, 1))
    else match VersionSplit(base)
      case None => Some((base, 1))
      case Some((stem, digits)) =>
        var v := DigitsValue(digits);
        if IsInt32(v) then Some((stem, v)) else None
  }

  /** A version label: the stem, "_v" and the number. */
  function Versioned(stem: string, v: nat): string {
    stem + "_v" + NatToString(v)
  }

  /** The length of the longest name. */
  ghost function MaxLength(names: set<string>): (m: nat)
    ensures forall n :: n in names ==> |n| <= m
    decreases names
  {
    if names == {} then 0
    else
      var n :| n in names;
      var rest := MaxLength(names - {n});
      if |n| > rest then |n| else rest
  }

  lemma {:induction false} Pow10Grows(a: nat, b: nat)
    requires a <= b
    ensures Pow10(a) <= Pow10(b)
    decreases b
  {
    if a < b {
      Pow10Grows(a, b - 1);
    }
  }

  /** A run of m digits is worth less than 10^m. */
  lemma {:induction false} DigitsBelow(s: string)
    requires AllDigits(s)
    ensures DigitsValue(s) < Pow10(|s|)
  {
    if s != [] {
      DigitsBelow(s[..|s| - 1]);
    }
  }

  /** A taken version label has a number below 10 to the longest name's length. */
  lemma VersionBelow(stem: string, v: nat, fileNames: set<string>)
    requires Versioned(stem, v) + ZipSuffix in fileNames
    ensures v < Pow10(MaxLength(fileNames))
  {
    var L := MaxLength(fileNames);
    assert |Versioned(stem, v) + ZipSuffix| <= L;
    if v >= Pow10(L) {
      NatToStringLength(v, L);
      assert false;
    }
  }

  /** The number counting starts from is below that bound too, when the name itself is taken. */
  lemma StartBelow(base: string, fileNames: set<string>)
    requires base + ZipSuffix in fileNames && VersionStart(base, fileNames).Some?
    ensures VersionStart(base, fileNames).value.1 < Pow10(MaxLength(fileNames))
  {
    var L := MaxLength(fileNames);
    assert |base + ZipSuffix| <= L;
    Pow10Grows(1, L);
    match VersionSplit(base)
    case None =>
    case Some((stem, digits)) =>
      DigitsBelow(digits);
      Pow10Grows(|digits|, L);
  }

  /** The first version after v whose label is free. */
  function NextFree(stem: string, v: nat, fileNames: set<string>): (r: nat)
    requires v <= Pow10(MaxLength(fileNames))
    ensures r > v && Versioned(stem, r) + ZipSuffix !in fileNames
    ensures forall j :: v < j < r ==> Versioned(stem, j) + ZipSuffix in fileNames
    decreases Pow10(MaxLength(fileNames)) - v
  {
    if Versioned(stem, v + 1) + ZipSuffix !in fileNames then v + 1
    else
      VersionBelow(stem, v + 1, fileNames);
      NextFree(stem, v + 1, fileNames)
  }

  /**
   * genName: the name itself when it is free; otherwise the stem with the
   * first free version after the one the name carries (or after 1). None is
   * the overflow of Integer.parseInt.
   */
  function Suggestion(base: string, fileNames: set<string>): (r: Option<string>)
    ensures r.None? <==> VersionStart(base, fileNames).None?
    ensures r.Some? ==> r.value + ZipSuffix !in fileNames
    ensures base + ZipSuffix !in fileNames ==> r == Some(base)
  {
    match VersionStart(base, fileNames)
    case None => None
    case Some((stem, v)) =>
      if base + ZipSuffix !in fileNames then Some(base)
      else
        StartBelow(base, fileNames);
        Some(Versioned(stem, NextFree(stem, v, fileNames)))
  }

  /** A taken "name_vN" is suggested as "name_vM" for the first free M after N. */
  lemma SuggestionContinues(stem: string, digits: string, fileNames: set<string>)
    requires digits != [] && AllDigits(digits) && NoLineTerminator(stem) && IsInt32(DigitsValue(digits))
    requires stem + "_v" + digits + ZipSuffix in fileNames
    ensures exists m :: m > DigitsValue(digits) && Suggestion(stem + "_v" + digits, fileNames) == Some(Versioned(stem, m))
                        && forall j :: DigitsValue(digits) < j < m ==> Versioned(stem, j) + ZipSuffix in fileNames
  {
    var base := stem + "_v" + digits;
    VersionSplitMatches(stem, digits);
    StartBelow(base, fileNames);
    var m := NextFree(stem, DigitsValue(digits), fileNames);
    assert Suggestion(base, fileNames) == Some(Versioned(stem, m));
  }

  /** The versions loop: counting on from v while the next label is taken. */
  method CountVersions(stem: string, v0: nat, fileNames: set<string>) returns (v: nat)
    requires v0 <= Pow10(MaxLength(fileNames))
    ensures v == NextFree(stem, v0, fileNames)
  {
    ghost var bound := Pow10(MaxLength(fileNames));
    v := v0;
    while Versioned(stem, v + 1) + ZipSuffix in fileNames
      invariant v <= bound && NextFree(stem, v0, fileNames) == NextFree(stem, v, fileNames)
      decreases bound - v
    {
      VersionBelow(stem, v + 1, fileNames);
      v := v + 1;
    }
    v := v + 1;
  }

  /** The genName loop of importAction. */
  method Suggest(base: string, fileNames: set<string>) returns (r: Option<string>)
    ensures r == Suggestion(base, fileNames)
  {
    var start := VersionStart(base, fileNames);
    if start.None? {
      return None;
    }
    if base + ZipSuffix !in fileNames {
      return Some(base);
    }
    StartBelow(base, fileNames);
    var v := CountVersions(start.value.0, start.value.1, fileNames);
    return Some(Versioned(start.value.0, v));
  }

  // ------------------------------------------------------- import: renaming

  /** The two lines of the rename prompt for a taken file name. */
  function RenamePrompt(fileName: string, gen: string): seq<string>
    requires EndsWith(fileName, ZipSuffix)
  {
    ["You already have an adventure called " + fileName[..|fileName| - |ZipSuffix|],
     "What would you like to rename the adventure to? (Hit enter for " + gen + ")"]
  }

  /**
   * The rename loop of importAction (lines 764-773): while the file name is
   * taken, a line is read; a blank one means the suggestion. The result is
   * the free file name with the input after it, or None when the input runs
   * out, and the lines printed.
   */
  function RenameLoop(fileNames: set<string>, fileName: string, gen: string, input: seq<string>): (r: (Option<(string, seq<string>)>, seq<string>))
    requires EndsWith(fileName, ZipSuffix)
    ensures r.0.Some? ==> r.0.value.0 !in fileNames && EndsWith(r.0.value.0, ZipSuffix)
    ensures fileName !in fileNames ==> r == (Some((fileName, input)), [])
    decreases |input|
  {
    if fileName !in fileNames then (Some((fileName, input)), [])
    else if input == [] then (None, RenamePrompt(fileName, gen))
    else
      var next := (if input[0] == "" then gen else input[0]) + ZipSuffix;
      assert next[|next| - |ZipSuffix|..] == ZipSuffix;
      var more := RenameLoop(fileNames, next, gen, input[1..]);
      (more.0, RenamePrompt(fileName, gen) + more.1)
  }

  /** When the suggestion is free, a blank line settles the rename at once. */
  lemma BlankTakesSuggestion(fileNames: set<string>, fileName: string, gen: string, input: seq<string>)
    requires EndsWith(fileName, ZipSuffix) && fileName in fileNames
    requires gen + ZipSuffix !in fileNames && input != [] && input[0] == ""
    ensures RenameLoop(fileNames, fileName, gen, input) == (Some((gen + ZipSuffix, input[1..])), RenamePrompt(fileName, gen))
  {
    var next := gen + ZipSuffix;
    assert next[|next| - |ZipSuffix|..] == ZipSuffix;
    assert RenamePrompt(fileName, gen) + [] == RenamePrompt(fileName, gen);
  }

  method Rename(fileNames: set<string>, fileName: string, gen: string, input: seq<string>) returns (r: Option<(string, seq<string>)>, out: seq<string>)
    requires EndsWith(fileName, ZipSuffix)
    ensures (r, out) == RenameLoop(fileNames, fileName, gen, input)
  {
    var name := fileName;
    var rest := input;
    out := [];
    while name in fileNames
      invariant EndsWith(name, ZipSuffix)
      invariant RenameLoop(fileNames, fileName, gen, input).0 == RenameLoop(fileNames, name, gen, rest).0
      invariant RenameLoop(fileNames, fileName, gen, input).1 == out + RenameLoop(fileNames, name, gen, rest).1
      decreases |rest|
    {
      out := out + RenamePrompt(name, gen);
      if rest == [] {
        return None, out;
      }
      var next := (if rest[0] == "" then gen else rest[0]) + ZipSuffix;
      assert next[|next| - |ZipSuffix|..] == ZipSuffix;
      assert RenameLoop(fileNames, name, gen, rest).1 == RenamePrompt(name, gen) + RenameLoop(fileNames, next, gen, rest[1..]).1;
      name, rest := next, rest[1..];
    }
    assert out + [] == out;
    return Some((name, rest)), out;
  }

  /** How importAction settles the adventure's name. */
  datatype Import = BadFile | VersionOverflow | Named(adventure: string, rest: seq<string>) | Unnamed

  /**
   * The naming part of importAction, for a file of this name that does or
   * does not exist: "Bad file!" for a missing file or one not ending ".zip";
   * otherwise the rename loop with the suggestion, and the adventure name
   * is the file name without ".zip".
   */
  method ImportName(zipName: string, present: bool, fileNames: set<string>, input: seq<string>) returns (r: Import, out: seq<string>)
    ensures !EndsWith(zipName, ZipSuffix) || !present ==> r == BadFile && out == ["Bad file!"]
    ensures EndsWith(zipName, ZipSuffix) && present ==>
      var base := zipName[..|zipName| - |ZipSuffix|];
      match Suggestion(base, fileNames)
      case None => r == VersionOverflow && out == []
      case Some(gen) =>
        var named := RenameLoop(fileNames, zipName, gen, input);
        && out == named.1
        && (named.0.None? ==> r == Unnamed)
        && (named.0.Some? ==> r == Named(named.0.value.0[..|named.0.value.0| - |ZipSuffix|], named.0.value.1))
    ensures r.Named? ==> r.adventure + ZipSuffix !in fileNames
  {
    if !EndsWith(zipName, ZipSuffix) || !present {
      return BadFile, ["Bad file!"];
    }
    var base := zipName[..|zipName| - |ZipSuffix|];
    assert base + ZipSuffix == zipName;
    var gen := Suggest(base, fileNames);
    if gen.None? {
      return VersionOverflow, [];
    }
    var named;
    named, out := Rename(fileNames, zipName, gen.value, input);
    if named.None? {
      return Unnamed, out;
    }
    var fileName := named.value.0;
    assert fileName[..|fileName| - |ZipSuffix|] + ZipSuffix == fileName;
    r := Named(fileName[..|fileName| - |ZipSuffix|], named.value.1);
  }

  // ---------------------------------------------------------------- newGame

  predicate IsAlphaNum(c: char) {
    'a' <= c <= 'z' || 'A' <= c <= 'Z' || '0' <= c <= '9'
  }

  /** randomAlphNum for the draw x = (int) (Math.random() * 62). */
  function AlphNum(x: int): (c: char)
    requires 0 <= x < 62
    ensures IsAlphaNum(c)
  {
    if x < 26 then ('a' as int + x) as char
    else if x < 52 then ('A' as int + x - 26) as char
    else ('0' as int + x - 52) as char
  }

  /** The draw that yields an alphanumeric character. */
  function AlphNumIndex(c: char): (x: int)
    requires IsAlphaNum(c)
    ensures 0 <= x < 62
  {
    if 'a' <= c <= 'z' then c as int - 'a' as int
    else if 'A' <= c <= 'Z' then c as int - 'A' as int + 26
    else c as int - '0' as int + 52
  }

  /** Every draw yields a different character ... */
  lemma AlphNumIndexOf(x: int)
    requires 0 <= x < 62
    ensures AlphNumIndex(AlphNum(x)) == x
  {
  }

  /** ... and every letter and digit is some draw's character. */
  lemma AlphNumOf(c: char)
    requires IsAlphaNum(c)
    ensures AlphNum(AlphNumIndex(c)) == c
  {
  }

  /** The candidate names newGame draws: "story_" and six characters. */
  function StoryCandidate(draws: seq<int>): (name: string)
    requires |draws| == 6 && forall k :: 0 <= k < 6 ==> 0 <= draws[k] < 62
    ensures |name| == 12 && StartsWith(name, "story_")
    ensures forall k :: 6 <= k < 12 ==> name[k] == AlphNum(draws[k - 6])
  {
    "story_" + seq(6, k requires 0 <= k < 6 => AlphNum(draws[k]))
  }

  predicate Draws(draws: seq<int>) {
    forall k :: 0 <= k < |draws| ==> 0 <= draws[k] < 62
  }

  /** The do-while of newGame: the first candidate, six draws at a time, that is not taken; None when the draws run out. */
  function FirstFreeStory(draws: seq<int>, fileNames: set<string>): (r: Option<string>)
    requires Draws(draws)
    ensures r.Some? ==> r.value + ZipSuffix !in fileNames && |r.value| == 12 && StartsWith(r.value, "story_")
                        && forall k :: 6 <= k < 12 ==> IsAlphaNum(r.value[k])
    decreases |draws|
  {
    if |draws| < 6 then None
    else
      var name := StoryCandidate(draws[..6]);
      if name + ZipSuffix !in fileNames then Some(name) else FirstFreeStory(draws[6..], fileNames)
  }

  method PickStoryName(draws: seq<int>, fileNames: set<string>) returns (r: Option<string>)
    requires Draws(draws)
    ensures r == FirstFreeStory(draws, fileNames)
  {
    var left := draws;
    while true
      invariant Draws(left) && FirstFreeStory(draws, fileNames) == FirstFreeStory(left, fileNames)
      decreases |left|
    {
      if |left| < 6 {
        return None;
      }
      var name := StoryCandidate(left[..6]);
      if name + ZipSuffix !in fileNames {
        return Some(name);
      }
      left := left[6..];
    }
  }

  function NamePrompt(suggestion: string): string {
    "What would you like to name your story (hit enter for " + suggestion + ")?"
  }

  const NameTaken: string := "That name is already taken. Pick a different name or hit enter."

  /** The name loop of newGame as written: a line is refused while line + ".zip" is taken, a blank line included. */
  function NameLoopAsWritten(fileNames: set<string>, input: seq<string>): (r: (Option<(string, seq<string>)>, seq<string>))
    ensures r.0.Some? ==> r.0.value.0 + ZipSuffix !in fileNames
    decreases |input|
  {
    if input == [] then (None, [])
    else if input[0] + ZipSuffix in fileNames then
      var more := NameLoopAsWritten(fileNames, input[1..]);
      (more.0, [NameTaken] + more.1)
    else (Some((input[0], input[1..])), [])
  }

  /** With a hidden file ".zip" present, hitting enter is refused, although the prompt offers it. */
  lemma BlankRefusedAsWritten(fileNames: set<string>, rest: seq<string>)
    requires ZipSuffix in fileNames
    ensures NameLoopAsWritten(fileNames, [""] + rest) ==
      (NameLoopAsWritten(fileNames, rest).0, [NameTaken] + NameLoopAsWritten(fileNames, rest).1)
    ensures NameLoopAsWritten(fileNames, [""]) == (None, [NameTaken])
  {
    assert ([""] + rest)[1..] == rest;
    assert "" + ZipSuffix == ZipSuffix;
    assert [""][1..] == [];
    assert [NameTaken] + [] == [NameTaken];
  }

  /** The name loop as its prompt describes it: a blank line, or a line whose ".zip" is free, ends it. */
  function NameLoop(fileNames: set<string>, input: seq<string>): (r: (Option<(string, seq<string>)>, seq<string>))
    ensures r.0.Some? ==> r.0.value.0 == "" || r.0.value.0 + ZipSuffix !in fileNames
    ensures input != [] && input[0] == "" ==> r == (Some(("", input[1..])), [])
    decreases |input|
  {
    if input == [] then (None, [])
    else if input[0] != "" && input[0] + ZipSuffix in fileNames then
      var more := NameLoop(fileNames, input[1..]);
      (more.0, [NameTaken] + more.1)
    else (Some((input[0], input[1..])), [])
  }

  /** The loop only refuses names that are taken: on other lines it agrees with the source. */
  lemma {:induction false} NameLoopAgrees(fileNames: set<string>, input: seq<string>)
    requires ZipSuffix !in fileNames
    ensures NameLoop(fileNames, input) == NameLoopAsWritten(fileNames, input)
    decreases |input|
  {
    if input != [] {
      if input[0] == "" {
        assert input[0] + ZipSuffix == ZipSuffix;
      } else if input[0] + ZipSuffix in fileNames {
        NameLoopAgrees(fileNames, input[1..]);
      }
    }
  }

  /** The name newGame settles on: the suggestion for a blank line, else the line. */
  function StoryName(line: string, suggestion: string): string {
    if line == "" then suggestion else line
  }

  /** The name chosen is never taken, given a free suggestion. */
  lemma StoryNameFree(fileNames: set<string>, suggestion: string, input: seq<string>)
    requires suggestion + ZipSuffix !in fileNames && NameLoop(fileNames, input).0.Some?
    ensures StoryName(NameLoop(fileNames, input).0.value.0, suggestion) + ZipSuffix !in fileNames
  {
  }

  method ReadStoryName(fileNames: set<string>, input: seq<string>) returns (r: Option<(string, seq<string>)>, out: seq<string>)
    ensures (r, out) == NameLoop(fileNames, input)
  {
    var rest := input;
    out := [];
    while true
      invariant NameLoop(fileNames, input).0 == NameLoop(fileNames, rest).0
      invariant NameLoop(fileNames, input).1 == out + NameLoop(fileNames, rest).1
      decreases |rest|
    {
      if rest == [] {
        assert out + [] == out;
        return None, out;
      }
      if rest[0] == "" || rest[0] + ZipSuffix !in fileNames {
        assert out + [] == out;
        return Some((rest[0], rest[1..])), out;
      }
      out := out + [NameTaken];
      assert NameLoop(fileNames, rest).1 == [NameTaken] + NameLoop(fileNames, rest[1..]).1;
      rest := rest[1..];
    }
  }

  const Welcome: string := "Welcome to grow! Your world is empty :(. But, you can fill it with stuff! To get started, type \":help\"!"

  /**
   * newGame: a free "story_" name is drawn and offered, a name read, and a
   * game made of one scene, "start", with the welcome text. Null when the
   * draws or the input run out.
   */
  method NewGame(draws: seq<int>, fileNames: set<string>, input: seq<string>) returns (g: Game?, rest: seq<string>, out: seq<string>)
    requires Draws(draws)
    ensures FirstFreeStory(draws, fileNames).None? ==> g == null && rest == input && out == []
    ensures FirstFreeStory(draws, fileNames).Some? ==>
      var suggestion := FirstFreeStory(draws, fileNames).value;
      var read := NameLoop(fileNames, input);
      && out == [NamePrompt(suggestion)] + read.1
      && (read.0.None? ==> g == null && rest == [])
      && (read.0.Some? ==>
            g != null && fresh(g) && g.Valid() && rest == read.0.value.1
            && g.adventureName == StoryName(read.0.value.0, suggestion)
            && g.scenes.Keys == {"start"} && g.current == g.start && g.start.name == "start"
            && g.start.Data() == SceneData(Welcome, []) && g.score.value == 0)
    ensures g != null ==> g.adventureName + ZipSuffix !in fileNames
  {
    var suggestion := PickStoryName(draws, fileNames);
    if suggestion.None? {
      return null, input, [];
    }
    var line;
    line, out := ReadStoryName(fileNames, input);
    out := [NamePrompt(suggestion.value)] + out;
    if line.None? {
      assert NameLoop(fileNames, input).0.None?;
      return null, [], out;
    }
    StoryNameFree(fileNames, suggestion.value, input);
    var start := new Scene("start", Welcome);
    g := new Game(start, StoryName(line.value.0, suggestion.value));
    rest := line.value.1;
  }

  // ------------------------------------------------------------------ sounds

  /** SOUND_FILES. */
  const SoundFiles: set<string> := {"mp3", "wav", "aac"}

  /** String.lastIndexOf for one character: -1 when it does not occur. */
  function LastIndex(s: string, c: char): (r: int)
    ensures -1 <= r < |s|
    ensures r >= 0 ==> s[r] == c && forall k :: r < k < |s| ==> s[k] != c
    ensures r == -1 ==> forall k :: 0 <= k < |s| ==> s[k] != c
  {
    if s == [] then -1
    else if s[|s| - 1] == c then |s| - 1
    else LastIndex(s[..|s| - 1], c)
  }

  /**
   * The check saveSound makes of a file name: the text after the last '.'
   * must be a sound extension; a name without '.' is refused.
   */
  function SoundExtension(name: string): (r: Option<string>)
    ensures r.Some? ==> r.value in SoundFiles && EndsWith(name, "." + r.value)
    ensures r.Some? <==> exists k :: 0 <= k < |name| && name[k] == '.' && name[k + 1..] in SoundFiles
                                      && forall j :: k < j < |name| ==> name[j] != '.'
  {
    var dot := LastIndex(name, '.');
    if dot == -1 then None
    else if name[dot + 1..] in SoundFiles then
      assert name[|name| - |"." + name[dot + 1..]|..] == "." + name[dot + 1..];
      Some(name[dot + 1..])
    else None
  }

  /** The entry readSound looks for: exactly the scene's name, ".", and a sound extension. */
  predicate SoundEntry(scene: string, entry: string) {
    StartsWith(entry, scene + ".") && entry[|scene| + 1..] in SoundFiles
  }

  /** The file saveSound writes for a scene, newFileName. */
  function SoundFileName(scene: string, extension: string): string {
    scene + "." + extension
  }

  /** What saveSound stores is what readSound finds. */
  lemma SavedSoundFound(scene: string, name: string)
    requires SoundExtension(name).Some?
    ensures SoundEntry(scene, SoundFileName(scene, SoundExtension(name).value))
  {
    var e := SoundFileName(scene, SoundExtension(name).value);
    assert e[..|scene| + 1] == scene + "." && e[|scene| + 1..] == SoundExtension(name).value;
  }

  /** And every entry readSound accepts is the name saveSound gives a file with that extension. */
  lemma SoundEntryIsSaved(scene: string, entry: string)
    requires SoundEntry(scene, entry)
    ensures SoundExtension(entry) == Some(entry[|scene| + 1..])
    ensures entry == SoundFileName(scene, entry[|scene| + 1..])
  {
    var ext := entry[|scene| + 1..];
    assert ext == "mp3" || ext == "wav" || ext == "aac";
    assert forall j :: |scene| < j < |entry| ==> entry[j] == ext[j - |scene| - 1];
    assert entry[|scene|] == '.';
    assert entry == entry[..|scene| + 1] + ext;
  }

  /** The search of readSound: the first entry of the archive listing that is the scene's sound, or none. */
  method FindSound(scene: string, entries: seq<string>) returns (r: Option<string>)
    ensures r.Some? ==> exists i :: 0 <= i < |entries| && entries[i] == r.value && SoundEntry(scene, r.value)
                                    && forall j :: 0 <= j < i ==> !SoundEntry(scene, entries[j])
    ensures r.None? ==> forall j :: 0 <= j < |entries| ==> !SoundEntry(scene, entries[j])
  {
    for i := 0 to |entries|
      invariant forall j :: 0 <= j < i ==> !SoundEntry(scene, entries[j])
    {
      if SoundEntry(scene, entries[i]) {
        return Some(entries[i]);
      }
    }
    return None;
  }
}
