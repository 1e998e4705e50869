/**
 * The command line of the launcher: processArgs groups the arguments under
 * the flags they follow, and main decides from that map what to do or which
 * "Bad arguments" message to print.
 */
module Args {
  import opened Wrappers

  /** The flags main hands to processArgs. */
  const Flags: set<string> := {"-t", "--grow-root", "--reset-root", "--set-root", "--help"}

  function Unrecognized(arg: string): string { "Unrecognized flag: " + arg }

  function Duplicate(flag: string): string { "Duplicate flag: " + flag }

  /**
   * processArgs from a point in its loop: the arguments still to read, the
   * map built so far and the last flag read (null as None).
   */
  function ProcessFrom(s: seq<string>, flags: set<string>, result: map<string, seq<string>>, last: Option<string>): (r: Result<map<string, seq<string>>, string>)
    requires last.Some? ==> last.value in result
    decreases |s|
  {
    if s == [] then Ok(result)
    else if s[0] in flags then
      if s[0] in result then Err(Duplicate(s[0]))
      else ProcessFrom(s[1..], flags, result[s[0] := []], Some(s[0]))
    else if last.Some? then ProcessFrom(s[1..], flags, result[last.value := result[last.value] + [s[0]]], last)
    else Err(Unrecognized(s[0]))
  }

  /** processArgs: each flag mapped to the arguments that follow it up to the next flag. */
  function Process(args: seq<string>, flags: set<string>): Result<map<string, seq<string>>, string> {
    ProcessFrom(args, flags, map[], None)
  }

  method ProcessArgs(args: seq<string>, flags: set<string>) returns (r: Result<map<string, seq<string>>, string>)
    ensures r == Process(args, flags)
  {
    var result: map<string, seq<string>> := map[];
    var last: Option<string> := None;
    var i := 0;
    while i < |args|
      invariant i <= |args| && (last.Some? ==> last.value in result)
      invariant Process(args, flags) == ProcessFrom(args[i..], flags, result, last)
    {
      var next := args[i];
      assert args[i..][1..] == args[i + 1..];
      if next in flags {
        if next in result {
          return Err(Duplicate(next));
        }
        result := result[next := []];
        last := Some(next);
      } else if last.Some? {
        result := result[last.value := result[last.value] + [next]];
      } else {
        return Err(Unrecognized(next));
      }
      i := i + 1;
    }
    return Ok(result);
  }

  /** No argument is a flag. */
  predicate FlagFree(s: seq<string>, flags: set<string>) {
    forall i :: 0 <= i < |s| ==> s[i] !in flags
  }

  /** No flag occurs twice. */
  predicate FlagsDistinct(s: seq<string>, flags: set<string>) {
    forall i, j :: 0 <= i < j < |s| && s[i] in flags ==> s[i] != s[j]
  }

  /** The flags that occur. */
  function FlagsOf(s: seq<string>, flags: set<string>): set<string> {
    set i | 0 <= i < |s| && s[i] in flags :: s[i]
  }

  /** The arguments before the first flag. */
  function Run(s: seq<string>, flags: set<string>): (r: seq<string>)
    ensures |r| <= |s| && r == s[..|r|] && FlagFree(r, flags)
    ensures |r| < |s| ==> s[|r|] in flags
  {
    if s == [] || s[0] in flags then [] else [s[0]] + Run(s[1..], flags)
  }

  lemma {:induction false} RunOfFlagFree(s: seq<string>, flags: set<string>)
    requires FlagFree(s, flags)
    ensures Run(s, flags) == s
  {
    if s != [] {
      RunOfFlagFree(s[1..], flags);
    }
  }

  /** The step of the success condition: reading one argument. */
  lemma OkStep(s: seq<string>, flags: set<string>, keys: set<string>, keys': set<string>)
    requires s != [] && keys' == if s[0] in flags then keys + {s[0]} else keys
    requires s[0] in flags ==> s[0] !in keys
    ensures ((forall i :: 0 <= i < |s| && s[i] in flags ==> s[i] !in keys) && FlagsDistinct(s, flags))
        <==> ((forall i :: 0 <= i < |s[1..]| && s[1..][i] in flags ==> s[1..][i] !in keys') && FlagsDistinct(s[1..], flags))
  {
    var t := s[1..];
    assert forall i :: 0 <= i < |t| ==> t[i] == s[i + 1];
    if (forall i :: 0 <= i < |t| && t[i] in flags ==> t[i] !in keys') && FlagsDistinct(t, flags) {
      forall i, j | 0 <= i < j < |s| && s[i] in flags
        ensures s[i] != s[j]
      {
        if i > 0 {
          assert t[i - 1] == s[i] && t[j - 1] == s[j];
        } else if s[j] in flags {
          assert t[j - 1] == s[j];
        }
      }
    }
  }

  /**
   * processArgs succeeds exactly when no argument comes before the first
   * flag (or after a flag already read), no flag is already in the map and
   * no flag repeats.
   */
  lemma {:induction false} OkIffFrom(s: seq<string>, flags: set<string>, result: map<string, seq<string>>, last: Option<string>)
    requires last.Some? ==> last.value in result
    ensures ProcessFrom(s, flags, result, last).Ok? <==>
      (s == [] || s[0] in flags || last.Some?)
      && (forall i :: 0 <= i < |s| && s[i] in flags ==> s[i] !in result)
      && FlagsDistinct(s, flags)
    decreases |s|
  {
    if s != [] {
      if s[0] in flags && s[0] !in result {
        OkIffFrom(s[1..], flags, result[s[0] := []], Some(s[0]));
        OkStep(s, flags, result.Keys, result.Keys + {s[0]});
      } else if s[0] !in flags && last.Some? {
        OkIffFrom(s[1..], flags, result[last.value := result[last.value] + [s[0]]], last);
        OkStep(s, flags, result.Keys, result.Keys);
      }
    }
  }

  /** The arguments are accepted exactly when they start with a flag (or are none) and no flag repeats. */
  lemma OkIff(args: seq<string>, flags: set<string>)
    ensures Process(args, flags).Ok? <==> (args == [] || args[0] in flags) && FlagsDistinct(args, flags)
  {
    OkIffFrom(args, flags, map[], None);
  }

  /** The map's keys: those already present and every flag read. */
  lemma {:induction false} KeysFrom(s: seq<string>, flags: set<string>, result: map<string, seq<string>>, last: Option<string>)
    requires last.Some? ==> last.value in result
    requires ProcessFrom(s, flags, result, last).Ok?
    ensures ProcessFrom(s, flags, result, last).value.Keys == result.Keys + FlagsOf(s, flags)
    decreases |s|
  {
    if s != [] {
      var t := s[1..];
      if s[0] in flags {
        KeysFrom(t, flags, result[s[0] := []], Some(s[0]));
        assert FlagsOf(s, flags) == {s[0]} + FlagsOf(t, flags) by {
          assert forall i :: 0 < i < |s| ==> s[i] == t[i - 1];
        }
      } else {
        KeysFrom(t, flags, result[last.value := result[last.value] + [s[0]]], last);
        assert FlagsOf(s, flags) == FlagsOf(t, flags) by {
          assert forall i :: 0 < i < |s| ==> s[i] == t[i - 1];
        }
      }
    }
  }

  /** The keys are exactly the flags given. */
  lemma Keys(args: seq<string>, flags: set<string>)
    requires Process(args, flags).Ok?
    ensures Process(args, flags).value.Keys == FlagsOf(args, flags)
  {
    KeysFrom(args, flags, map[], None);
  }

  /** No flag read is already in the map. */
  lemma FlagsNew(s: seq<string>, flags: set<string>, result: map<string, seq<string>>, last: Option<string>)
    requires last.Some? ==> last.value in result
    requires ProcessFrom(s, flags, result, last).Ok?
    ensures FlagsOf(s, flags) !! result.Keys
  {
    OkIffFrom(s, flags, result, last);
  }

  /** The last flag read gets the leading arguments appended. */
  lemma {:induction false} LastValue(s: seq<string>, flags: set<string>, result: map<string, seq<string>>, l: string)
    requires l in result && ProcessFrom(s, flags, result, Some(l)).Ok?
    ensures var m := ProcessFrom(s, flags, result, Some(l)).value;
      l in m && m[l] == result[l] + Run(s, flags)
    decreases |s|
  {
    if s == [] {
      assert result[l] + [] == result[l];
    } else if s[0] in flags {
      var t := s[1..];
      var next := result[s[0] := []];
      assert s[0] !in result && l != s[0] && next[l] == result[l];
      assert ProcessFrom(s, flags, result, Some(l)) == ProcessFrom(t, flags, next, Some(s[0]));
      FlagsNew(t, flags, next, Some(s[0]));
      ValuesStay(t, flags, next, Some(s[0]), l);
      assert Run(s, flags) == [] && result[l] + [] == result[l];
    } else {
      var next := result[l := result[l] + [s[0]]];
      assert ProcessFrom(s, flags, result, Some(l)) == ProcessFrom(s[1..], flags, next, Some(l));
      LastValue(s[1..], flags, next, l);
      assert Run(s, flags) == [s[0]] + Run(s[1..], flags);
      assert result[l] + [s[0]] + Run(s[1..], flags) == result[l] + Run(s, flags);
    }
  }

  /** Each flag read gets the arguments after it, up to the next flag. */
  lemma {:induction false} FlagValue(s: seq<string>, flags: set<string>, result: map<string, seq<string>>, last: Option<string>, i: nat)
    requires last.Some? ==> last.value in result
    requires ProcessFrom(s, flags, result, last).Ok? && i < |s| && s[i] in flags
    ensures var m := ProcessFrom(s, flags, result, last).value;
      s[i] in m && m[s[i]] == Run(s[i + 1..], flags)
    decreases i
  {
    var t := s[1..];
    if i == 0 {
      LastValue(t, flags, result[s[0] := []], s[0]);
      assert [] + Run(t, flags) == Run(t, flags);
    } else {
      assert t[i - 1] == s[i] && t[i..] == s[i + 1..];
      if s[0] in flags {
        FlagValue(t, flags, result[s[0] := []], Some(s[0]), i - 1);
      } else {
        FlagValue(t, flags, result[last.value := result[last.value] + [s[0]]], last, i - 1);
      }
    }
  }

  /** An entry that is not the last flag and not read again keeps its value. */
  lemma {:induction false} ValuesStay(s: seq<string>, flags: set<string>, result: map<string, seq<string>>, last: Option<string>, k: string)
    requires last.Some? ==> last.value in result
    requires ProcessFrom(s, flags, result, last).Ok?
    requires k in result && last != Some(k) && k !in FlagsOf(s, flags)
    ensures var m := ProcessFrom(s, flags, result, last).value; k in m && m[k] == result[k]
    decreases |s|
  {
    if s != [] {
      var t := s[1..];
      assert FlagsOf(t, flags) <= FlagsOf(s, flags) by {
        assert forall i :: 0 <= i < |t| ==> t[i] == s[i + 1];
      }
      if s[0] in flags {
        assert s[0] in FlagsOf(s, flags);
        ValuesStay(t, flags, result[s[0] := []], Some(s[0]), k);
      } else {
        ValuesStay(t, flags, result[last.value := result[last.value] + [s[0]]], last, k);
      }
    }
  }

  /** Each flag given is mapped to the arguments after it, up to the next flag. */
  lemma Values(args: seq<string>, flags: set<string>, i: nat)
    requires Process(args, flags).Ok? && i < |args| && args[i] in flags
    ensures args[i] in Process(args, flags).value
    ensures Process(args, flags).value[args[i]] == Run(args[i + 1..], flags)
  {
    FlagValue(args, flags, map[], None, i);
  }

  /** The flag at j occurs already before it. */
  predicate Repeated(s: seq<string>, flags: set<string>, keys: set<string>, j: int) {
    0 <= j < |s| && s[j] in flags && (s[j] in keys || s[j] in s[..j])
  }

  /** j is the first such flag. */
  predicate FirstRepeated(s: seq<string>, flags: set<string>, keys: set<string>, j: int) {
    Repeated(s, flags, keys, j) && forall k :: 0 <= k < j ==> !Repeated(s, flags, keys, k)
  }

  /** Shifting the first repeat by one argument. */
  lemma RepeatStep(s: seq<string>, flags: set<string>, keys: set<string>, keys': set<string>, j: int)
    requires s != [] && keys' == if s[0] in flags then keys + {s[0]} else keys
    requires s[0] in flags ==> s[0] !in keys
    requires FirstRepeated(s[1..], flags, keys', j)
    ensures FirstRepeated(s, flags, keys, j + 1) && s[j + 1] == s[1..][j]
  {
    var t := s[1..];
    assert s[..j + 1] == [s[0]] + t[..j];
    forall k | 0 <= k < j + 1
      ensures !Repeated(s, flags, keys, k)
    {
      if k > 0 {
        assert !Repeated(t, flags, keys', k - 1);
        assert s[..k] == [s[0]] + t[..k - 1];
      }
    }
  }

  /**
   * A failure names the first argument when it is not a flag, and otherwise
   * the first flag that occurs a second time.
   */
  lemma {:induction false} ErrorFrom(s: seq<string>, flags: set<string>, result: map<string, seq<string>>, last: Option<string>)
    requires last.Some? ==> last.value in result
    requires ProcessFrom(s, flags, result, last).Err?
    ensures s != []
    ensures var e := ProcessFrom(s, flags, result, last).error;
      if last.None? && s[0] !in flags then e == Unrecognized(s[0])
      else exists j :: FirstRepeated(s, flags, result.Keys, j) && e == Duplicate(s[j])
    decreases |s|
  {
    var t := s[1..];
    if s[0] in flags && s[0] in result {
      assert FirstRepeated(s, flags, result.Keys, 0);
    } else if s[0] in flags {
      ErrorFrom(t, flags, result[s[0] := []], Some(s[0]));
      assert result[s[0] := []].Keys == result.Keys + {s[0]};
      var j :| FirstRepeated(t, flags, result.Keys + {s[0]}, j) && ProcessFrom(t, flags, result[s[0] := []], Some(s[0])).error == Duplicate(t[j]);
      RepeatStep(s, flags, result.Keys, result.Keys + {s[0]}, j);
    } else if last.Some? {
      var l := last.value;
      ErrorFrom(t, flags, result[l := result[l] + [s[0]]], last);
      assert result[l := result[l] + [s[0]]].Keys == result.Keys;
      var j :| FirstRepeated(t, flags, result.Keys, j) && ProcessFrom(t, flags, result[l := result[l] + [s[0]]], last).error == Duplicate(t[j]);
      RepeatStep(s, flags, result.Keys, result.Keys, j);
    }
  }

  /** The message of a refused command line. */
  lemma Error(args: seq<string>, flags: set<string>)
    requires Process(args, flags).Err?
    ensures args != []
    ensures args[0] !in flags ==> Process(args, flags).error == Unrecognized(args[0])
    ensures args[0] in flags ==> exists j :: FirstRepeated(args, flags, {}, j) && Process(args, flags).error == Duplicate(args[j])
  {
    var empty: map<string, seq<string>> := map[];
    assert empty.Keys == {};
    ErrorFrom(args, flags, empty, None);
  }

  /** Arguments after the last flag are appended to its list. */
  lemma {:induction false} AppendRun(s: seq<string>, flags: set<string>, result: map<string, seq<string>>, l: string)
    requires l in result && FlagFree(s, flags)
    ensures ProcessFrom(s, flags, result, Some(l)) == Ok(result[l := result[l] + s])
    decreases |s|
  {
    if s == [] {
      assert result[l] + s == result[l];
      assert result[l := result[l] + s] == result;
    } else {
      AppendRun(s[1..], flags, result[l := result[l] + [s[0]]], l);
      assert result[l := result[l] + [s[0]]][l := result[l] + [s[0]] + s[1..]] == result[l := result[l] + [s[0]] + s[1..]];
      assert result[l] + [s[0]] + s[1..] == result[l] + s;
    }
  }

  /** A one-key map is that key's entry. */
  lemma SingleKey(m: map<string, seq<string>>, k: string)
    requires k in m && |m| == 1
    ensures m == map[k := m[k]]
  {
    assert |m.Keys| == 1;
    assert |m.Keys - {k}| == 0;
    assert m.Keys == {k};
  }

  /** A flag and arguments that are no flags give the map of that flag alone. */
  lemma OneFlagAccepted(flags: set<string>, f: string, vals: seq<string>)
    requires f in flags && FlagFree(vals, flags)
    ensures Process([f] + vals, flags) == Ok(map[f := vals])
  {
    assert ([f] + vals)[1..] == vals;
    AppendRun(vals, flags, map[f := []], f);
    assert [] + vals == vals;
    assert map[f := []][f := vals] == map[f := vals];
  }

  /** Only such a command line gives a map holding one flag. */
  lemma OneFlagOnly(args: seq<string>, flags: set<string>, f: string, vals: seq<string>)
    requires f in flags && Process(args, flags) == Ok(map[f := vals])
    ensures args == [f] + vals && FlagFree(vals, flags)
  {
    OkIff(args, flags);
    Keys(args, flags);
    assert f in FlagsOf(args, flags);
    assert args[0] in FlagsOf(args, flags);
    var rest := args[1..];
    forall i | 0 <= i < |rest|
      ensures rest[i] !in flags
    {
      var x := args[i + 1];
      assert x in flags ==> x in FlagsOf(args, flags);
    }
    Values(args, flags, 0);
    RunOfFlagFree(rest, flags);
    assert args == [args[0]] + rest;
  }

  /** The command line is one flag and its arguments exactly when the map holds that flag alone. */
  lemma OnlyFlag(args: seq<string>, flags: set<string>, f: string, vals: seq<string>)
    requires f in flags
    ensures Process(args, flags) == Ok(map[f := vals]) <==> args == [f] + vals && FlagFree(vals, flags)
  {
    if args == [f] + vals && FlagFree(vals, flags) {
      OneFlagAccepted(flags, f, vals);
    }
    if Process(args, flags) == Ok(map[f := vals]) {
      OneFlagOnly(args, flags, f, vals);
    }
  }

  /** What main does. */
  datatype Launch =
    | SetRoot(path: string)
    | ResetRoot
    | Help
    | Start(textMode: bool, growRoot: Option<string>)
    | BadArguments(message: string)

  /** testSize: the message to throw when a size is not the one wanted. */
  function TestSize(size: nat, wanted: nat, error: string): (r: Option<string>)
    ensures r.Some? <==> size != wanted
    ensures r.Some? ==> r.value == error
  {
    if size != wanted then Some(error) else None
  }

  /**
   * main: --set-root, --reset-root and --help must come alone, with one,
   * none and no argument; --grow-root takes one argument; -t picks the text
   * game over the window.
   */
  function Main(args: seq<string>): (l: Launch)
    ensures Process(args, Flags).Err? ==> l == BadArguments(Process(args, Flags).error)
    ensures l.SetRoot? || l.ResetRoot? || l.Help? ==> Process(args, Flags).Ok? && |Process(args, Flags).value| == 1
    ensures l.Start? ==> Process(args, Flags).Ok? && (l.textMode <==> "-t" in Process(args, Flags).value)
    ensures l.Start? ==> var a := Process(args, Flags).value;
      && "--set-root" !in a && "--reset-root" !in a && "--help" !in a
      && (l.growRoot.Some? <==> "--grow-root" in a) && (l.growRoot.Some? ==> a["--grow-root"] == [l.growRoot.value])
  {
    match Process(args, Flags)
    case Err(e) => BadArguments(e)
    case Ok(a) =>
      if "--set-root" in a then
        match TestSize(|a|, 1, "--set-root must be the only flag.")
        case Some(e) => BadArguments(e)
        case None =>
          match TestSize(|a["--set-root"]|, 1, "--set-root can only have one argument")
          case Some(e) => BadArguments(e)
          case None => SetRoot(a["--set-root"][0])
      else if "--reset-root" in a then
        match TestSize(|a|, 1, "--reset-root must be the only flag.")
        case Some(e) => BadArguments(e)
        case None =>
          match TestSize(|a["--reset-root"]|, 0, "--reset-root takes no arguments")
          case Some(e) => BadArguments(e)
          case None => ResetRoot
      else if "--help" in a then
        match TestSize(|a|, 1, "--help must be the only flag")
        case Some(e) => BadArguments(e)
        case None =>
          match TestSize(|a["--help"]|, 0, "--help takes no arguments")
          case Some(e) => BadArguments(e)
          case None => Help
      else if "--grow-root" in a then
        match TestSize(|a["--grow-root"]|, 1, "--grow-root can only have one argument")
        case Some(e) => BadArguments(e)
        case None => Start("-t" in a, Some(a["--grow-root"][0]))
      else Start("-t" in a, None)
  }

  /** --set-root is accepted only as the whole command line, with one path. */
  lemma SetRootAlone(args: seq<string>, path: string)
    ensures Main(args) == SetRoot(path) <==> args == ["--set-root", path] && path !in Flags
  {
    OnlyFlag(args, Flags, "--set-root", [path]);
    if Main(args) == SetRoot(path) {
      var m := Process(args, Flags).value;
      SingleKey(m, "--set-root");
      assert m["--set-root"] == [path];
    }
  }

  /** --reset-root is accepted only as the whole command line. */
  lemma ResetRootAlone(args: seq<string>)
    ensures Main(args) == ResetRoot <==> args == ["--reset-root"]
  {
    OnlyFlag(args, Flags, "--reset-root", []);
    if Main(args) == ResetRoot {
      SingleKey(Process(args, Flags).value, "--reset-root");
    }
  }

  /** --help is accepted only as the whole command line. */
  lemma HelpAlone(args: seq<string>)
    ensures Main(args) == Help <==> args == ["--help"]
  {
    OnlyFlag(args, Flags, "--help", []);
    if Main(args) == Help {
      SingleKey(Process(args, Flags).value, "--help");
    }
  }

  /** -t takes any arguments after it and ignores them. */
  lemma TextModeIgnoresArguments(rest: seq<string>)
    requires FlagFree(rest, Flags)
    ensures Main(["-t"] + rest) == Start(true, None)
  {
    OnlyFlag(["-t"] + rest, Flags, "-t", rest);
  }

  /** The lines --help prints. */
  const Usage: seq<string> := [
    "Usage:",
    "Special options, must be used alone:",
    "--reset-root",
    "\tDeletes the location of the grow root. When you run grow again, it will pick a new root.",
    "--set-root <path to root folder>",
    "\tSets the grow root to the specified folder. The folder will be made if it does not exist.",
    "--help",
    "\tPrints the helpful messages that are currently being printed.",
    "Normal flags (may be used in combination with each other, in any order):",
    "-t",
    "\tStarts grow in text mode.",
    "--grow-root <path to root folder>",
    "\tSets the grow root to the specified folder for the current session."
  ]

  /** What main prints before it goes on: the usage, or the message of a bad command line. */
  function Printed(l: Launch): (out: seq<string>)
    ensures l.BadArguments? ==> out == ["Bad arguments: " + l.message]
    ensures l.Help? ==> |out| == 13 && out[0] == "Usage:"
    ensures !l.Help? && !l.BadArguments? ==> out == []
  {
    match l
    case Help => Usage
    case BadArguments(m) => ["Bad arguments: " + m]
    case _ => []
  }
}
