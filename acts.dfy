/**
 * What the playing actions do when a rule fires: Print, Go, ScoreChange,
 * Quit, Restart, View, ScoreDisplay and Extend. Each act works on the world
 * and its current scene, reads whatever lines it needs from the rest of the
 * input and returns the scene to move to (null ends the game) together with
 * the lines it printed. Running out of input is the Exhausted outcome.
 */
module Acts {
  import opened Wrappers
  import opened Text
  import opened Actions
  import opened Rules
  import opened Scenes
  import opened Games
  import opened Util

  // --------------------------------------------------------------- printing

  /** The line ScoreChange prints: its command string with a space after the sign. */
  function ScoreChangeLine(change: Int32): (line: string)
    ensures |line| >= 2 && line[0] == CommandString(ScoreChange(change))[0] && line[1] == ' '
    ensures line[2..] == CommandString(ScoreChange(change))[1..]
  {
    [if change >= 0 then '+' else '-'] + " " + Body(ScoreChange(change))
  }

  /** The line Quit prints: the score, which parseInt reads back from what follows "Score: ". */
  function QuitLine(score: Int32): (line: string)
    ensures StartsWith(line, "Score: ") && ParseInt(line[7..]) == Some(score as int)
  {
    ParseIntToString(score);
    "Score: " + IntToString(score)
  }

  /** The line ScoreDisplay prints. */
  function ScoreDisplayLine(score: Int32): (line: string)
    ensures StartsWith(line, "Your score is: ") && ParseInt(line[15..]) == Some(score as int)
  {
    ParseIntToString(score);
    "Your score is: " + IntToString(score)
  }

  /** One rule as View lists it: the number left-aligned in five columns, a space, the rule's text. */
  function ViewLine(number: nat, r: Rule): (line: string)
    ensures StartsWith(line, IntToString(number)) && EndsWith(line, " " + ToString(r))
    ensures |line| == (if |IntToString(number)| < 5 then 5 else |IntToString(number)|) + 1 + |ToString(r)|
    ensures forall k :: |IntToString(number)| <= k < |line| - |ToString(r)| ==> line[k] == ' '
  {
    var column := PadRight(IntToString(number), 5);
    var text := " " + ToString(r);
    assert (column + text)[..|IntToString(number)|] == column[..|IntToString(number)|];
    assert (column + text)[|column|..] == text;
    column + text
  }

  /** The rules numbered from 1, one line each, in list order. */
  function RuleListing(rules: seq<Rule>): (lines: seq<string>)
    ensures |lines| == |rules|
    ensures forall k :: 0 <= k < |rules| ==> lines[k] == ViewLine(k + 1, rules[k])
  {
    seq(|rules|, k requires 0 <= k < |rules| => ViewLine(k + 1, rules[k]))
  }

  /** View.act: the scene's name, then one numbered line per rule. */
  function ViewLines(name: string, rules: seq<Rule>): (lines: seq<string>)
    ensures |lines| == 1 + |rules| && lines[0] == "Scene: " + name
    ensures forall k :: 0 <= k < |rules| ==> lines[1 + k] == ViewLine(k + 1, rules[k])
  {
    ["Scene: " + name] + RuleListing(rules)
  }

  /** The two lines Go prints before it reads the description of a scene it creates. */
  function NewSceneLines(target: string): (lines: seq<string>)
    ensures |lines| == 2 && StartsWith(lines[0], "Creating new scene: ") && EndsWith(lines[0], target)
    ensures lines[1] == "Description: "
  {
    ["Creating new scene: " + target, "Description: "]
  }

  // ------------------------------------------------------------------- Go

  /**
   * Go.act: the target scene is entered and its description printed; a
   * target the world lacks is first created from the next input line, raw,
   * as its description, with no rules.
   */
  method Go(target: string, game: Game, input: seq<string>) returns (r: Outcome<Scene?>, out: seq<string>)
    requires game.Valid()
    modifies game
    ensures game.Valid()
    ensures game.start == old(game.start) && game.current == old(game.current)
    ensures game.adventureName == old(game.adventureName)
    ensures target in old(game.scenes) ==>
      game.scenes == old(game.scenes) && r == Value(game.scenes[target], input) && out == [game.scenes[target].description]
    ensures target !in old(game.scenes) && input == [] ==>
      game.scenes == old(game.scenes) && r == Exhausted && out == NewSceneLines(target)
    ensures target !in old(game.scenes) && input != [] ==>
      target in game.scenes && fresh(game.scenes[target]) && game.scenes == old(game.scenes)[target := game.scenes[target]]
      && game.scenes[target].Data() == SceneData(input[0], [])
      && r == Value(game.scenes[target], input[1..]) && out == NewSceneLines(target) + [input[0]]
    ensures r.Value? ==> r.value != null && r.value.name == target && target in game.scenes && game.scenes[target] == r.value
  {
    out := [];
    var rest := input;
    if game.GetScene(target) == null {
      out := NewSceneLines(target);
      if rest == [] {
        return Exhausted, out;
      }
      var empty := new Scene(target, rest[0]);
      rest := rest[1..];
      var err := game.AddScene(empty);
      assert err.None?;
    }
    var toGo := game.GetScene(target);
    out := out + [toGo.description];
    r := Value(toGo, rest);
  }

  // ------------------------------------------------------- score and restart

  /** ScoreChange.act: the change is added to the score, the line printed, and the current scene kept. */
  method ChangeScore(change: Int32, game: Game) returns (out: seq<string>)
    modifies game.score
    ensures game.score.value == Wrap32(old(game.score.value) + change)
    ensures out == [ScoreChangeLine(change)]
  {
    var _ := game.score.Increment(change);
    out := [ScoreChangeLine(change)];
  }

  /** Restart.act: the world restarts and the start scene is entered, printing its description. */
  method Restart(game: Game, input: seq<string>) returns (r: Outcome<Scene?>, out: seq<string>)
    requires game.Valid()
    modifies game, game.score
    ensures game.Valid() && game.current == game.start && game.score.value == 0
    ensures game.scenes == old(game.scenes) && game.start == old(game.start)
    ensures game.adventureName == old(game.adventureName)
    ensures r == Value(game.start, input) && out == [game.start.description]
  {
    game.Restart();
    r, out := Go(game.current.name, game, input);
  }

  // ----------------------------------------------------------------- Extend

  /**
   * What a loop reading lines up to the first empty one has gathered: the
   * items so far, the input after that empty line (None when the input ran
   * out first) and the lines printed.
   */
  datatype Gathered<T> = Gathered(items: seq<T>, rest: Option<seq<string>>, printed: seq<string>)

  /** The number of item lines a gathering loop read, not counting the empty line that ended it. */
  function Consumed<T>(input: seq<string>, g: Gathered<T>): int {
    if g.rest.Some? then |input| - |g.rest.value| - 1 else |input|
  }

  /**
   * Pattern lines: every line before the first empty one (the empty string),
   * each added to the pattern set with addPattern.
   */
  function PatternLines(input: seq<string>, patterns: seq<string>): (g: Gathered<string>)
    ensures g.printed == []
    ensures g.rest.None? <==> "" !in input
    ensures 0 <= Consumed(input, g) <= |input| && "" !in input[..Consumed(input, g)]
    ensures g.rest.Some? ==> (Consumed(input, g) < |input| && input[Consumed(input, g)] == ""
      && g.rest.value == input[Consumed(input, g) + 1..])
    ensures forall x :: x in g.items <==> x in patterns || x in input[..Consumed(input, g)]
    ensures Distinct(patterns) ==> Distinct(g.items)
    decreases |input|
  {
    if input == [] then Gathered(patterns, None, [])
    else if input[0] == "" then Gathered(patterns, Some(input[1..]), [])
    else
      var g := PatternLines(input[1..], Insert(patterns, input[0]));
      assert input[1..][..Consumed(input[1..], g)] == input[1..Consumed(input, g)];
      g
  }

  /** Two prefixes that each end at the first empty line, or at the end of the input, are one and the same. */
  lemma FirstEmptyUnique(input: seq<string>, c: nat, d: nat)
    requires c <= |input| && "" !in input[..c] && (c < |input| ==> input[c] == "")
    requires d <= |input| && "" !in input[..d] && (d < |input| ==> input[d] == "")
    ensures c == d
  {
  }

  /**
   * What the pattern lines gather: the patterns already there and the lines
   * of the block before the first empty line, nothing else, and the input
   * after the empty line.
   */
  lemma PatternLinesBlock(input: seq<string>, patterns: seq<string>)
    ensures var g := PatternLines(input, patterns); var b := Block(input);
      && (forall x :: x in g.items <==> x in patterns || x in b)
      && g.rest == (if |b| < |input| then Some(input[|b| + 1..]) else None)
  {
    var g := PatternLines(input, patterns);
    var b := Block(input);
    FirstEmptyUnique(input, Consumed(input, g), |b|);
  }

  /** The loop over pattern lines, adding to `patterns`. */
  method ReadPatterns(input: seq<string>, patterns: seq<string>) returns (g: Gathered<string>)
    ensures g == PatternLines(input, patterns)
  {
    var rest := input;
    var items := patterns;
    while rest != [] && rest[0] != ""
      invariant PatternLines(input, patterns) == PatternLines(rest, items)
    {
      items := Insert(items, rest[0]);
      rest := rest[1..];
    }
    g := Gathered(items, if rest == [] then None else Some(rest[1..]), []);
  }

  /** The lines before the first empty one; all of them when none is empty. */
  function Block(input: seq<string>): (b: seq<string>)
    ensures |b| <= |input| && b == input[..|b|] && "" !in b
    ensures |b| < |input| ==> input[|b|] == ""
    decreases |input|
  {
    if input == [] || input[0] == "" then []
    else [input[0]] + Block(input[1..])
  }

  /** One `bad` line for each line of `lines` that parses to no action. */
  function BadLines(lines: seq<string>, bad: string): (r: seq<string>)
    ensures |r| <= |lines| && forall k :: 0 <= k < |r| ==> r[k] == bad
    ensures (forall k :: 0 <= k < |lines| ==> ParseAction(lines[k]).Some?) ==> r == []
  {
    if lines == [] then []
    else (if ParseAction(lines[0]).None? then [bad] else []) + BadLines(lines[1..], bad)
  }

  /**
   * Action lines: every line before the first empty one parsed as an action
   * and appended; a line that parses to none prints `bad` and is skipped.
   */
  function ActionLines(input: seq<string>, bad: string, actions: seq<Action>, printed: seq<string>): (g: Gathered<Action>)
    ensures g.rest.None? <==> "" !in input
    ensures g.rest.Some? ==> |g.rest.value| < |input|
    ensures |actions| <= |g.items| && g.items[..|actions|] == actions
    ensures (forall k :: 0 <= k < |actions| ==> Parseable(actions[k])) ==>
      forall k :: 0 <= k < |g.items| ==> Parseable(g.items[k])
    decreases |input|
  {
    if input == [] then Gathered(actions, None, printed)
    else if input[0] == "" then Gathered(actions, Some(input[1..]), printed)
    else match ParseAction(input[0])
      case None => ActionLines(input[1..], bad, actions, printed + [bad])
      case Some(a) =>
        var g := ActionLines(input[1..], bad, actions + [a], printed);
        assert g.items[..|actions|] == (actions + [a])[..|actions|];
        g
  }

  /** Concatenation regrouped. */
  lemma Regroup<T>(a: seq<T>, b: seq<T>, c: seq<T>)
    ensures a + (b + c) == a + b + c
  {
    assert forall i :: 0 <= i < |a + b + c| ==> (a + (b + c))[i] == (a + b + c)[i];
  }

  /**
   * What the action lines gather: the actions parsed from the block before
   * the first empty line, in order, after those already there; one `bad`
   * line for each line of the block that parses to none; and the input after
   * the empty line.
   */
  lemma {:induction false} ActionLinesBlock(input: seq<string>, bad: string, actions: seq<Action>, printed: seq<string>)
    ensures var b := Block(input);
      ActionLines(input, bad, actions, printed)
        == Gathered(actions + ParsedActions(b), if |b| < |input| then Some(input[|b| + 1..]) else None, printed + BadLines(b, bad))
    decreases |input|
  {
    if input != [] && input[0] != "" {
      var b := Block(input[1..]);
      assert Block(input) == [input[0]] + b;
      assert ([input[0]] + b)[0] == input[0] && ([input[0]] + b)[1..] == b;
      assert |b| < |input| - 1 ==> input[1..][|b| + 1..] == input[|b| + 2..];
      var whole := Block(input);
      var rest := if |whole| < |input| then Some(input[|whole| + 1..]) else None;
      assert rest == if |b| < |input[1..]| then Some(input[1..][|b| + 1..]) else None;
      match ParseAction(input[0])
      case None =>
        assert ParsedActions(whole) == ParsedActions(b);
        assert BadLines(whole, bad) == [bad] + BadLines(b, bad);
        ActionLinesBlock(input[1..], bad, actions, printed + [bad]);
        assert ActionLines(input, bad, actions, printed) == ActionLines(input[1..], bad, actions, printed + [bad]);
        Regroup(printed, [bad], BadLines(b, bad));
      case Some(a) =>
        assert ParsedActions(whole) == [a] + ParsedActions(b);
        assert BadLines(whole, bad) == BadLines(b, bad);
        ActionLinesBlock(input[1..], bad, actions + [a], printed);
        assert ActionLines(input, bad, actions, printed) == ActionLines(input[1..], bad, actions + [a], printed);
        Regroup(actions, [a], ParsedActions(b));
    } else {
      assert Block(input) == [];
      assert ParsedActions([]) == [] && BadLines([], bad) == [];
      assert actions + [] == actions && printed + [] == printed;
    }
  }

  /** The block is the whole input exactly when no line is empty. */
  lemma BlockWhole(input: seq<string>)
    ensures |Block(input)| == |input| <==> "" !in input
  {
    var b := Block(input);
    if |b| < |input| {
      assert input[|b|] == "";
    } else {
      assert input == b;
    }
  }

  /** The loop over action lines, appending to `actions`. */
  method ReadActions(input: seq<string>, bad: string, actions: seq<Action>) returns (g: Gathered<Action>)
    ensures g == ActionLines(input, bad, actions, [])
  {
    var rest := input;
    var items := actions;
    var out := [];
    while rest != [] && rest[0] != ""
      invariant ActionLines(input, bad, actions, []) == ActionLines(rest, bad, items, out)
    {
      var parsed := ParseAction(rest[0]);
      if parsed.None? {
        out := out + [bad];
      } else {
        items := items + [parsed.value];
      }
      rest := rest[1..];
    }
    g := Gathered(items, if rest == [] then None else Some(rest[1..]), out);
  }

  const ExtendHeading := "Patterns to match (case insensitive, regex supported): "

  /**
   * What Extend reads: the rule built from the pattern block and the action
   * block (None when the input runs out), and what it prints meanwhile.
   */
  function ExtendRead(input: seq<string>): (r: (Option<(Rule, seq<string>)>, seq<string>))
    ensures r.0.Some? ==> WellFormed(r.0.value.0) && "" !in r.0.value.0.patterns
    ensures r.0.Some? ==> forall k :: 0 <= k < |r.0.value.0.actions| ==> Parseable(r.0.value.0.actions[k])
    ensures r.0.Some? ==> |r.0.value.1| < |input|
    ensures var p := PatternLines(input, []);
      p.rest.Some? ==>
        var b := Block(p.rest.value);
        && r.1 == [ExtendHeading, "Actions:"] + BadLines(b, "Bad action!")
        && (r.0.Some? ==> r.0.value.0 == Rule(p.items, ParsedActions(b)))
  {
    var patterns := PatternLines(input, []);
    if patterns.rest.None? then (None, [ExtendHeading])
    else
      var actions := ActionLines(patterns.rest.value, "Bad action!", [], []);
      ActionLinesBlock(patterns.rest.value, "Bad action!", [], []);
      var out := [ExtendHeading, "Actions:"] + actions.printed;
      if actions.rest.None? then (None, out)
      else (Some((Rule(patterns.items, actions.items), actions.rest.value)), out)
  }

  /**
   * Extend.act: exactly one rule, the one read, is appended to the current
   * scene's rules; then "Extension complete." and the scene is re-entered.
   */
  method Extend(game: Game, input: seq<string>) returns (r: Outcome<Scene?>, out: seq<string>)
    requires game.Valid() && game.current != null
    modifies game, game.current
    ensures game.Valid()
    ensures game.scenes == old(game.scenes) && game.start == old(game.start) && game.current == old(game.current)
    ensures game.adventureName == old(game.adventureName)
    ensures game.current.description == old(game.current.description)
    ensures match ExtendRead(input).0
      case Some((rule, rest)) =>
        game.current.rules == old(game.current.rules) + [rule] && r == Value(game.current, rest)
        && out == ExtendRead(input).1 + ["Extension complete.", game.current.description]
      case None => game.current.rules == old(game.current.rules) && r == Exhausted && out == ExtendRead(input).1
  {
    var current := game.current;
    var read;
    read, out := ReadExtension(input);
    if read.None? {
      return Exhausted, out;
    }
    current.rules := current.rules + [read.value.0];
    out := out + ["Extension complete."];
    var entered;
    r, entered := Go(current.name, game, read.value.1);
    out := out + entered;
  }

  /** Extend's two reading loops. */
  method ReadExtension(input: seq<string>) returns (read: Option<(Rule, seq<string>)>, out: seq<string>)
    ensures (read, out) == ExtendRead(input)
  {
    out := [ExtendHeading];
    var patterns := ReadPatterns(input, []);
    if patterns.rest.None? {
      return None, out;
    }
    var actions := ReadActions(patterns.rest.value, "Bad action!", []);
    out := [ExtendHeading, "Actions:"] + actions.printed;
    if actions.rest.None? {
      return None, out;
    }
    read := Some((Rule(patterns.items, actions.items), actions.rest.value));
  }

  /**
   * A pattern block of distinct non-empty lines and an action block of lines
   * that all parse make, after their empty lines, the rule of those patterns
   * and those actions in order.
   */
  lemma ExtendReadsRule(patterns: seq<string>, lines: seq<string>, actions: seq<Action>, rest: seq<string>)
    requires Distinct(patterns) && "" !in patterns
    requires |lines| == |actions| && "" !in lines
    requires forall k :: 0 <= k < |lines| ==> ParseAction(lines[k]) == Some(actions[k])
    ensures ExtendRead(patterns + ([""] + (lines + ([""] + rest)))).0 == Some((Rule(patterns, actions), rest))
  {
    var block := lines + ([""] + rest);
    assert [] + patterns == patterns && [] + actions == actions;
    PatternBlock(patterns, [], block);
    ActionBlock(lines, actions, [], [], rest);
  }

  lemma {:induction false} PatternBlock(lines: seq<string>, patterns: seq<string>, rest: seq<string>)
    requires Distinct(patterns + lines) && "" !in lines
    ensures PatternLines(lines + ([""] + rest), patterns) == Gathered(patterns + lines, Some(rest), [])
    decreases |lines|
  {
    if lines == [] {
      assert lines + ([""] + rest) == [""] + rest;
      assert patterns + lines == patterns;
    } else {
      var tail := lines[1..];
      assert (lines + ([""] + rest))[1..] == tail + ([""] + rest);
      forall k | 0 <= k < |patterns| ensures patterns[k] != lines[0] {
        assert (patterns + lines)[k] == patterns[k] && (patterns + lines)[|patterns|] == lines[0];
      }
      assert Insert(patterns, lines[0]) == patterns + [lines[0]];
      assert patterns + [lines[0]] + tail == patterns + lines;
      PatternBlock(tail, patterns + [lines[0]], rest);
    }
  }

  lemma {:induction false} ActionBlock(lines: seq<string>, actions: seq<Action>, done: seq<Action>, printed: seq<string>, rest: seq<string>)
    requires |lines| == |actions| && "" !in lines
    requires forall k :: 0 <= k < |lines| ==> ParseAction(lines[k]) == Some(actions[k])
    ensures ActionLines(lines + ([""] + rest), "Bad action!", done, printed) == Gathered(done + actions, Some(rest), printed)
    decreases |lines|
  {
    if lines == [] {
      assert lines + ([""] + rest) == [""] + rest;
      assert done + actions == done;
    } else {
      assert (lines + ([""] + rest))[1..] == lines[1..] + ([""] + rest);
      assert (lines + ([""] + rest))[0] == lines[0];
      assert done + [actions[0]] + actions[1..] == done + actions;
      ActionBlock(lines[1..], actions[1..], done + [actions[0]], printed, rest);
    }
  }
}
