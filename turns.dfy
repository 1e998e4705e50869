/**
 * The turn executor (GrowGame): the built-in ':' commands, the dispatch of a
 * line of input to those commands or to the current scene, the actions of
 * the matching rule run one after another with a move after each, and the
 * play loop that keeps taking turns until the game is over.
 */
module Turns {
  import opened Wrappers
  import opened Text
  import opened Actions
  import opened Rules
  import opened Scenes
  import opened Games
  import opened Util
  import Acts
  import Editors
  import Legacy
  import opened Traces

  // ------------------------------------------------------ built-in commands

  const HelpText: string := "To quit, type \":quit\"\nTo start over again, type \":restart\"\nTo add a rule to this scene, type \":extend\"\nTo remove a rule from this scene, type \":remove\"\nTo change the order of the rules in this scene, type \":reorder\"\nTo change the description for the current scene, type \":description\"\nTo cancel an edit, type \":cancel\".\nTo view all the rules for the current scene, type \":view\"\nTo open a different adventure, type \":change story\"\nTo create a new adventure, type \":new\""

  const NothingToCancel: string := "Nothing to cancel."

  /**
   * The rules of the base scene, in the order the constructor adds them. The
   * base scene is never entered and never edited, so only its rules matter.
   */
  const BaseRules: seq<Rule> := [
    Rule(["help"], [Print(HelpText)]),
    Rule(["quit"], [SaveAndQuit]),
    Rule(["restart"], [Restart]),
    Rule(["change story"], [ChangeStory]),
    Rule(["new"], [NewStory]),
    Rule(["extend"], [Extend]),
    Rule(["remove"], [Remove]),
    Rule(["edit"], [Edit]),
    Rule(["reorder"], [Reorder]),
    Rule(["description"], [ChangeDescription]),
    Rule(["cancel"], [Print(NothingToCancel)]),
    Rule(["view"], [View]),
    Rule(["import"], [ImportStory]),
    Rule(["save"], [SaveGame])
  ]

  /** The line printed when a move fails with NoSuchScene. */
  const Trouble: string := "Something bad has occurred. Please tell the developer."

  /**
   * The actions a line sets off: a line starting with ':' is first offered,
   * without the ':', to the built-in commands; when none of them matches, or
   * the line has no ':', the whole line goes to the rules of the current
   * scene. None means that no rule matched.
   */
  function Chosen(line: string, base: seq<Rule>, rules: seq<Rule>): (r: Option<seq<Action>>)
    ensures var command := StartsWith(line, ":") && exists k :: 0 <= k < |base| && Matches(base[k], line[1..]);
      && (r.None? <==> !command && forall k :: 0 <= k < |rules| ==> !Matches(rules[k], line))
      && (r.Some? && command ==>
            exists k :: 0 <= k < |base| && Matches(base[k], line[1..]) && r.value == base[k].actions
                        && forall j :: 0 <= j < k ==> !Matches(base[j], line[1..]))
      && (r.Some? && !command ==>
            exists k :: 0 <= k < |rules| && Matches(rules[k], line) && r.value == rules[k].actions
                        && forall j :: 0 <= j < k ==> !Matches(rules[j], line))
  {
    var command := if StartsWith(line, ":") then FirstActions(base, line[1..]) else None;
    if command.Some? then command else FirstActions(rules, line)
  }

  /** When a built-in command matches, the rules of the current scene play no part. */
  lemma CommandsShadowScene(line: string, base: seq<Rule>, rules: seq<Rule>, others: seq<Rule>)
    requires StartsWith(line, ":") && FirstActions(base, line[1..]).Some?
    ensures Chosen(line, base, rules) == Chosen(line, base, others) == FirstActions(base, line[1..])
  {
  }

  /** A line without ':' goes, whole, to the scene's rules, and a ':' line no command takes does too. */
  lemma SceneTakesTheRest(line: string, base: seq<Rule>, rules: seq<Rule>)
    requires !StartsWith(line, ":") || FirstActions(base, line[1..]).None?
    ensures Chosen(line, base, rules) == FirstActions(rules, line)
  {
  }

  /** Of the built-in commands only ":quit" ends the game. */
  lemma OnlyQuitEnds(k: nat, a: Action)
    requires k < |BaseRules| && a in BaseRules[k].actions && Ends(a)
    ensures BaseRules[k].patterns == ["quit"] && a == SaveAndQuit
  {
  }

  /** No built-in command is one of the older editors. */
  lemma CommandsNeverEscape(k: nat, a: Action)
    requires k < |BaseRules| && a in BaseRules[k].actions
    ensures !OldEditor(a) && |BaseRules[k].actions| == 1 && |BaseRules[k].patterns| == 1
  {
  }

  /** An action as a file can hold it is neither an older editor nor the save manager's quit. */
  lemma StoredActionsNeverEscape(a: Action)
    requires Parseable(a)
    ensures !OldEditor(a) && (Ends(a) ==> a == Quit)
  {
  }

  // ------------------------------------------------------------ acting

  /**
   * The acts that only print, or that stand for the save manager's file
   * work: Print, Quit, View, ScoreDisplay, ScoreChange and the built-in
   * save, open, new, import and save-and-quit.
   */
  method PerformPlain(a: Action, game: Game, input: seq<string>) returns (r: Outcome<Scene?>, out: seq<string>)
    requires game.Valid() && game.current != null
    requires a.Print? || a.Quit? || a.View? || a.ScoreDisplay? || a.ScoreChange?
             || a.SaveGame? || a.ChangeStory? || a.NewStory? || a.ImportStory? || a.SaveAndQuit?
    modifies game.score
    ensures a.ScoreChange? ==> game.score.value == Wrap32(old(game.score.value) + a.change)
    ensures !a.ScoreChange? ==> game.score.value == old(game.score.value)
    ensures r == Value(if Ends(a) then null else game.current, input)
    ensures a.Print? ==> out == [a.text]
    ensures Ends(a) ==> out == [Acts.QuitLine(old(game.score.value))]
    ensures a.View? ==> out == Acts.ViewLines(game.current.name, game.current.rules)
    ensures a.ScoreDisplay? ==> out == [Acts.ScoreDisplayLine(game.score.value)]
    ensures a.ScoreChange? ==> out == [Acts.ScoreChangeLine(a.change)]
    ensures a.SaveGame? || a.ChangeStory? || a.NewStory? || a.ImportStory? ==> out == []
  {
    r := Value(game.current, input);
    match a
    case Print(text) =>
      out := [text];
    case Quit =>
      r, out := Value(null, input), [Acts.QuitLine(game.score.value)];
    case SaveAndQuit =>
      r, out := Value(null, input), [Acts.QuitLine(game.score.value)];
    case View =>
      out := Acts.ViewLines(game.current.name, game.current.rules);
    case ScoreDisplay =>
      out := [Acts.ScoreDisplayLine(game.score.value)];
    case ScoreChange(change) =>
      out := Acts.ChangeScore(change, game);
    case _ =>
      out := [];
  }

  /** The acts that move: Go and Restart. */
  method PerformMove(a: Action, game: Game, input: seq<string>) returns (r: Outcome<Scene?>, out: seq<string>)
    requires game.Valid() && game.current != null && (a.Go? || a.Restart?)
    modifies game, game.score
    ensures game.Valid() && game.current != null
    ensures game.start == old(game.start) && game.adventureName == old(game.adventureName)
    ensures forall k :: k in old(game.scenes) ==> k in game.scenes && game.scenes[k] == old(game.scenes)[k]
    ensures forall k :: k in game.scenes && k !in old(game.scenes) ==> fresh(game.scenes[k])
    ensures r.Value? ==> r.value != null && r.value.name in game.scenes && game.scenes[r.value.name] == r.value
    ensures !r.Canceled?
    ensures a.Go? ==> game.score.value == old(game.score.value) && game.current == old(game.current)
    ensures a.Go? && r.Value? ==> r.value.name == a.target
    ensures a.Restart? ==> game.score.value == 0 && game.current == game.start && r == Value(game.start, input)
  {
    if a.Go? {
      r, out := Acts.Go(a.target, game, input);
    } else {
      r, out := Acts.Restart(game, input);
    }
  }

  /** The editors the built-in commands run: Extend, Edit, Reorder, Remove and ChangeDescription. */
  method PerformEditor(a: Action, game: Game, input: seq<string>) returns (r: Outcome<Scene?>, out: seq<string>)
    requires game.Valid() && game.current != null
    requires a.Extend? || a.Edit? || a.Reorder? || a.Remove? || a.ChangeDescription?
    modifies game, game.current
    ensures game.Valid() && game.current == old(game.current) && game.scenes == old(game.scenes)
    ensures game.start == old(game.start) && game.adventureName == old(game.adventureName)
    ensures r.Value? ==> r.value == game.current
    ensures !r.Canceled?
  {
    if a.Extend? {
      r, out := Acts.Extend(game, input);
    } else if a.ChangeDescription? {
      r, out := Editors.ChangeDescription(game, input);
    } else {
      r, out := PerformRuleEdit(a, game, input);
    }
  }

  /** The editors of the current scene's rule list: Edit, Reorder and Remove. */
  method PerformRuleEdit(a: Action, game: Game, input: seq<string>) returns (r: Outcome<Scene?>, out: seq<string>)
    requires game.Valid() && game.current != null
    requires a.Edit? || a.Reorder? || a.Remove?
    modifies game, game.current
    ensures game.Valid() && game.current == old(game.current) && game.scenes == old(game.scenes)
    ensures game.start == old(game.start) && game.adventureName == old(game.adventureName)
    ensures r.Value? ==> r.value == game.current
    ensures !r.Canceled?
  {
    match a
    case Edit =>
      r, out := Editors.Edit(game, input);
    case Reorder =>
      r, out := Editors.Reorder(game, input);
    case Remove =>
      r, out := Editors.Remove(game, input);
  }

  /** The older editors, whose cancel nothing catches. */
  method PerformOld(a: Action, game: Game, input: seq<string>) returns (r: Outcome<Scene?>, out: seq<string>)
    requires game.Valid() && game.current != null && OldEditor(a)
    modifies game, game.current
    ensures game.Valid() && game.current == old(game.current) && game.scenes == old(game.scenes)
    ensures game.start == old(game.start) && game.adventureName == old(game.adventureName)
    ensures r.Value? ==> r.value == game.current
  {
    match a
    case EditOrder =>
      r, out := Legacy.EditOrder(game, input);
    case EditActionOrder =>
      r, out := Legacy.EditActionOrder(game, input);
    case EditAction =>
      r, out := Legacy.EditAction(game, input);
    case EditPattern =>
      r, out := Legacy.EditPattern(game, input);
    case RemoveRule =>
      r, out := Legacy.RemoveRule(game, input);
  }

  /**
   * Action.act on the current scene of the world. Whatever the action, the
   * world stays valid, no scene is lost or replaced, the scene returned is
   * the one filed under its name (so the move after it cannot fail), and
   * only the two quitting actions return null.
   */
  method Perform(a: Action, game: Game, input: seq<string>) returns (r: Outcome<Scene?>, out: seq<string>)
    requires game.Valid() && game.current != null
    modifies game, game.score, game.current
    ensures game.Valid() && game.current != null
    ensures game.start == old(game.start) && game.adventureName == old(game.adventureName)
    ensures forall k :: k in old(game.scenes) ==> k in game.scenes && game.scenes[k] == old(game.scenes)[k]
    ensures forall k :: k in game.scenes && k !in old(game.scenes) ==> fresh(game.scenes[k])
    ensures r.Value? && r.value != null ==> r.value.name in game.scenes && game.scenes[r.value.name] == r.value
    ensures r.Value? && r.value == null <==> Ends(a)
    ensures r.Canceled? ==> OldEditor(a)
    ensures a.Print? ==> r == Value(game.current, input) && out == [a.text] && game.current == old(game.current)
    ensures Ends(a) ==> r == Value(null, input) && out == [Acts.QuitLine(old(game.score.value))]
  {
    if a.Print? || a.Quit? || a.View? || a.ScoreDisplay? || a.ScoreChange?
       || a.SaveGame? || a.ChangeStory? || a.NewStory? || a.ImportStory? || a.SaveAndQuit? {
      r, out := PerformPlain(a, game, input);
    } else if a.Go? || a.Restart? {
      r, out := PerformMove(a, game, input);
    } else if a.Extend? || a.Edit? || a.Reorder? || a.Remove? || a.ChangeDescription? {
      r, out := PerformEditor(a, game, input);
    } else {
      r, out := PerformOld(a, game, input);
    }
  }

  class GrowGame {
    /** The adventure being played; null before init and once the game is over. */
    var world: Game?
    /** The rules of the base scene: the built-in commands. */
    const base: seq<Rule>

    /** The game starts with no world loaded and the built-in commands in its base scene. */
    constructor ()
      ensures world == null && base == BaseRules
    {
      world := null;
      base := BaseRules;
    }

    /** The actions a line sets off in a scene with these rules: Chosen over the built-in commands first. */
    function Choose(line: string, rules: seq<Rule>): Option<seq<Action>> {
      Chosen(line, base, rules)
    }

    /** A world is loaded, valid, and has a current scene. */
    predicate Loaded()
      reads this, world
    {
      world != null && world.Valid() && world.current != null
    }

    /** init: a loaded world is an IllegalStateException and changes nothing; otherwise the world is the one loaded. */
    method Init(loaded: Game) returns (started: bool)
      modifies this
      ensures started <==> old(world) == null
      ensures world == if started then loaded else old(world)
    {
      if world != null {
        return false;
      }
      world := loaded;
      return true;
    }

    /**
     * world.move after an act, with its NoSuchScene caught: a null scene or
     * a failed move ends the game and drops the world; a scene filed under
     * its name becomes the current one.
     */
    method Advance(next: Scene?) returns (going: bool, out: seq<string>)
      requires world != null && world.Valid()
      modifies this, world
      ensures going <==> next != null && next.name in old(world.scenes)
      ensures going ==> world == old(world) && world.current == next && out == []
      ensures going && old(world.scenes)[next.name] == next ==> world.Valid()
      ensures !going ==> world == null && out == (if next == null then [] else [Trouble])
      ensures old(world).scenes == old(world.scenes) && old(world).start == old(world.start)
      ensures old(world).adventureName == old(world.adventureName)
    {
      var err := world.Move(next);
      if err.Some? {
        world := null;
        return false, [Trouble];
      }
      if next == null {
        world := null;
        return false, [];
      }
      return true, [];
    }

    /**
     * doTurn: the line picks its actions by Chosen over the built-in
     * commands and the current scene; no match prints the response drawn
     * for this turn and changes nothing; otherwise the actions run, as
     * `steps` trace.
     */
    method DoTurn(line: string, input: seq<string>, response: string) returns (r: TurnEnd, out: seq<string>, ghost steps: seq<Step>)
      requires Loaded()
      modifies this, world, world.score, world.Objects()
      ensures TurnRan(Turn(line, input, old(world.current.rules), Choose(line, old(world.current.rules)), steps, r, out), response)
      ensures Choose(line, old(world.current.rules)).None? ==>
        unchanged(old(world), old(world.score)) && unchanged(old(world.Objects()))
      ensures steps != [] ==> steps[0].score == old(world.score.value)
      ensures r.GameOver? <==> world == null
      ensures !r.GameOver? ==> Loaded() && world == old(world)
      ensures r.Playing? && steps != [] ==> world.current == steps[|steps| - 1].result.value
      ensures !r.GameOver? ==> world.start == old(world.start) && world.adventureName == old(world.adventureName)
      ensures !r.GameOver? ==> forall k :: k in old(world.scenes) ==> k in world.scenes && world.scenes[k] == old(world.scenes)[k]
      ensures !r.GameOver? ==> forall k :: k in world.scenes && k !in old(world.scenes) ==> fresh(world.scenes[k])
    {
      var actions: Option<seq<Action>> := None;
      if StartsWith(line, ":") {
        actions := FirstActions(base, line[1..]);
      }
      if actions.None? {
        actions := world.current.Act(line);
      }
      assert actions == Choose(line, old(world.current.rules));
      if actions.None? {
        return Playing(input), [response], [];
      }
      r, out, steps := RunActions(actions.value, input);
    }

    /**
     * The loop of doTurn: each action acts on the current scene and the
     * world moves to the scene it returns, until the list is done, a null
     * scene ends the game, or an exception leaves the turn. `steps` is the
     * trace of the actions that ran.
     */
    method RunActions(todo: seq<Action>, input: seq<string>) returns (r: TurnEnd, out: seq<string>, ghost steps: seq<Step>)
      requires Loaded()
      modifies this, world, world.score, world.Objects()
      ensures Ran(todo, input, steps, r) && out == Printed(steps)
      ensures steps != [] ==> steps[0].score == old(world.score.value)
      ensures r.GameOver? <==> world == null
      ensures !r.GameOver? ==> Loaded() && world == old(world)
      ensures r.Playing? && steps != [] ==> world.current == steps[|steps| - 1].result.value
      ensures r.Playing? && steps == [] ==> world.current == old(world.current)
      ensures !r.GameOver? ==> world.start == old(world.start) && world.adventureName == old(world.adventureName)
      ensures !r.GameOver? ==> forall k :: k in old(world.scenes) ==> k in world.scenes && world.scenes[k] == old(world.scenes)[k]
      ensures !r.GameOver? ==> forall k :: k in world.scenes && k !in old(world.scenes) ==> fresh(world.scenes[k])
    {
      var game := world;
      var rest := input;
      out := [];
      steps := [];
      var i := 0;
      while i < |todo|
        invariant 0 <= i <= |todo| && |steps| == i
        invariant world == game && Loaded()
        invariant Chain(todo, input, steps) && (steps != [] ==> WentOn(steps[i - 1]))
        invariant rest == Left(input, steps) && out == Printed(steps)
        invariant steps != [] ==> steps[0].score == old(world.score.value)
        invariant steps == [] ==> game.score.value == old(world.score.value)
        invariant steps != [] ==> game.current == steps[i - 1].result.value
        invariant steps == [] ==> game.current == old(world.current)
        invariant game.start == old(world.start) && game.adventureName == old(world.adventureName)
        invariant forall k :: k in old(world.scenes) ==> k in game.scenes && game.scenes[k] == old(world.scenes)[k]
        invariant forall k :: k in game.scenes && k !in old(world.scenes) ==> fresh(game.scenes[k])
      {
        ghost var score := game.score.value;
        var next, printed := Perform(todo[i], game, rest);
        ghost var step := Step(todo[i], rest, score, next, printed);
        assert Fits(step);
        ChainStep(todo, input, steps, step);
        steps := steps + [step];
        out := out + printed;
        match next
        case Exhausted =>
          return OutOfInput, out, steps;
        case Canceled(left) =>
          return CancelEscaped(left), out, steps;
        case Value(scene, left) =>
          var going, said := Advance(scene);
          if !going {
            out := out + said;
            return GameOver(left), out, steps;
          }
          rest := left;
        i := i + 1;
      }
      return Playing(rest), out, steps;
    }

    /**
     * One turn of play: doTurn on the first line of what the turns so far
     * left, with the response of this turn's number, recorded after them.
     */
    method PlayTurn(ghost input: seq<string>, respond: nat -> string, ghost ts: seq<Turn>, ghost out: seq<string>, played: nat, rest: seq<string>)
      returns (turn: TurnEnd, said: seq<string>, ghost more: seq<Turn>)
      requires Loaded() && rest != [] && played == |ts|
      requires Going(input, respond, Choose, ts, out, rest)
      modifies this, world, world.score, world.Objects()
      ensures turn.Playing? ==> Going(input, respond, Choose, more, out + said, turn.rest)
      ensures !turn.Playing? ==> Stopped(input, respond, Choose, more, out + said, turn)
      ensures |more| == |ts| + 1 && more[0].rules == if ts == [] then old(world.current.rules) else ts[0].rules
      ensures turn.GameOver? <==> world == null
      ensures !turn.GameOver? ==> Loaded() && world == old(world)
      ensures !turn.GameOver? ==> forall k :: k in old(world.scenes) ==> k in world.scenes && world.scenes[k] == old(world.scenes)[k]
      ensures !turn.GameOver? ==> forall k :: k in world.scenes && k !in old(world.scenes) ==> fresh(world.scenes[k])
    {
      ghost var rules := world.current.rules;
      ghost var steps;
      turn, said, steps := DoTurn(rest[0], rest[1..], respond(played));
      ghost var t := Turn(rest[0], rest[1..], rules, Choose(rest[0], rules), steps, turn, said);
      TakeTurn(input, respond, Choose, ts, out, rest, t);
      more := ts + [t];
    }

    /**
     * play: turns, each on the next line of input, until one does not leave
     * the game going. The turn count bounds the loop; respond gives the
     * unknown-input response drawn on each turn. `ts` traces the turns.
     */
    method Play(input: seq<string>, respond: nat -> string, turns: nat) returns (r: TurnEnd, out: seq<string>, played: nat, ghost ts: seq<Turn>)
      requires Loaded()
      modifies this, world, world.score, world.Objects()
      ensures Played(input, respond, Choose, turns, ts, out, r) && played == |ts|
      ensures ts != [] ==> ts[0].rules == old(world.current.rules)
      ensures r.Playing? ==> Loaded()
      ensures r.GameOver? <==> world == null
      ensures input == [] && turns > 0 ==> r == OutOfInput && played == 0 && out == []
    {
      var game := world;
      var rest := input;
      out := [];
      played := 0;
      ts := [];
      r := Playing(input);
      while played < turns && rest != []
        invariant |ts| == played <= turns && r == Playing(rest)
        invariant Going(input, respond, Choose, ts, out, rest)
        invariant ts != [] ==> ts[0].rules == old(world.current.rules)
        invariant world == game && Loaded()
        invariant forall k :: k in game.scenes && k !in old(world.scenes) ==> fresh(game.scenes[k])
        invariant forall k :: k in old(world.scenes) ==> k in game.scenes && game.scenes[k] == old(world.scenes)[k]
        invariant ts == [] ==> game.current.rules == old(world.current.rules)
        invariant input == [] ==> played == 0
      {
        var turn, said;
        turn, said, ts := PlayTurn(input, respond, ts, out, played, rest);
        out := out + said;
        played := played + 1;
        r := turn;
        if !turn.Playing? {
          break;
        }
        rest := turn.rest;
      }
      if r.Playing? && played < turns {
        r := OutOfInput;
      }
    }
  }
}
