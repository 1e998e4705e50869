/**
 * Traces of play: what each act of a turn did, how the acts of one turn
 * follow one another, and how turns follow one another on the input. The
 * game loop states its results in these terms.
 */
module Traces {
  import opened Wrappers
  import opened Text
  import opened Actions
  import opened Rules
  import opened Scenes
  import opened Util
  import Acts

  /** The actions after which the next scene is null: the game is over. */
  predicate Ends(a: Action) {
    a.Quit? || a.SaveAndQuit?
  }

  /** The older editors, the only acts that let a cancel escape. */
  predicate OldEditor(a: Action) {
    a.EditOrder? || a.EditActionOrder? || a.EditAction? || a.EditPattern? || a.RemoveRule?
  }

  // ---------------------------------------------------------------- turns

  /**
   * How a turn ends: the game goes on, the game is over, or an exception
   * leaves the turn (the input ran out, or an older editor was cancelled).
   */
  datatype TurnEnd = Playing(rest: seq<string>) | GameOver(rest: seq<string>) | OutOfInput | CancelEscaped(rest: seq<string>)

  // ------------------------------------------------------------ traces

  /**
   * One action of a turn as it ran: the input it was given, the score
   * before it, what it returned and what it printed.
   */
  datatype Step = Step(action: Action, input: seq<string>, score: Int32, result: Outcome<Scene?>, printed: seq<string>)

  /** A step after which the turn goes on: it returned a scene. */
  predicate WentOn(s: Step) {
    s.result.Value? && s.result.value != null
  }

  /** What an act promises whatever the action: only the quitting actions return null, only the older editors cancel. */
  predicate Fits(s: Step) {
    && (s.result.Value? && s.result.value == null <==> Ends(s.action))
    && (s.result.Canceled? ==> OldEditor(s.action))
    && (s.action.Print? ==> s.result.Value? && s.result.rest == s.input && s.printed == [s.action.text])
    && (Ends(s.action) ==> s.result.rest == s.input && s.printed == [Acts.QuitLine(s.score)])
  }

  /** The input left after steps that all went on. */
  function Left(input: seq<string>, steps: seq<Step>): seq<string>
    requires steps != [] ==> WentOn(steps[|steps| - 1])
  {
    if steps == [] then input else steps[|steps| - 1].result.rest
  }

  /**
   * Steps that ran the first actions of `todo` on `input`: each step ran the
   * next action on what the steps before it (which all went on to a scene)
   * left of the input.
   */
  predicate Chain(todo: seq<Action>, input: seq<string>, steps: seq<Step>)
    decreases |steps|
  {
    |steps| <= |todo| && (steps != [] ==>
      var n := |steps| - 1;
      && Chain(todo, input, steps[..n])
      && (n > 0 ==> WentOn(steps[n - 1]))
      && steps[n].input == Left(input, steps[..n])
      && steps[n].action == todo[n] && Fits(steps[n]))
  }

  /** The k-th of chained steps, and the link between it and the next. */
  lemma {:induction false} ChainAt(todo: seq<Action>, input: seq<string>, steps: seq<Step>, k: nat)
    requires Chain(todo, input, steps) && k < |steps|
    ensures steps[k].action == todo[k] && Fits(steps[k])
    ensures k == 0 ==> steps[0].input == input
    ensures k + 1 < |steps| ==> WentOn(steps[k]) && steps[k + 1].input == steps[k].result.rest
    decreases |steps|
  {
    var n := |steps| - 1;
    var before := steps[..n];
    if k < n {
      assert before[k] == steps[k];
      assert k + 1 < n ==> before[k + 1] == steps[k + 1];
      ChainAt(todo, input, before, k);
    }
  }

  /**
   * The steps of a turn that ran `todo` on `input`: chained as above, and
   * the end of the turn is what the last step returned; Playing when every
   * action ran and went on, on the input the last one left.
   */
  predicate Ran(todo: seq<Action>, input: seq<string>, steps: seq<Step>, r: TurnEnd) {
    && Chain(todo, input, steps)
    && match r
       case Playing(rest) =>
         |steps| == |todo| && (steps != [] ==> WentOn(steps[|steps| - 1])) && rest == Left(input, steps)
       case GameOver(rest) => steps != [] && steps[|steps| - 1].result == Value(null, rest)
       case OutOfInput => steps != [] && steps[|steps| - 1].result.Exhausted?
       case CancelEscaped(rest) => steps != [] && steps[|steps| - 1].result == Canceled(rest)
  }

  /** What the steps printed, one after another. */
  function Printed(steps: seq<Step>): (out: seq<string>)
    ensures steps == [] ==> out == []
    ensures |steps| == 1 ==> out == steps[0].printed
  {
    if steps == [] then [] else Printed(steps[..|steps| - 1]) + steps[|steps| - 1].printed
  }

  /**
   * One turn of play as it ran: the line it took and the input after it,
   * the rules of the scene it started in, the actions the line chose, the
   * steps they ran, how the turn ended and what it printed.
   */
  datatype Turn = Turn(line: string, input: seq<string>, rules: seq<Rule>, chosen: Option<seq<Action>>,
                       steps: seq<Step>, end: TurnEnd, said: seq<string>)

  /**
   * No action chosen prints the response and keeps playing on the same
   * input; otherwise the chosen actions ran as the steps say, and the turn
   * printed what they printed.
   */
  predicate TurnRan(t: Turn, response: string) {
    && (t.chosen.None? ==> t.steps == [] && t.end == Playing(t.input) && t.said == [response])
    && (t.chosen.Some? ==> Ran(t.chosen.value, t.input, t.steps, t.end) && t.said == Printed(t.steps))
  }

  /** A turn whose actions are the ones its line chose, and that ran as TurnRan says. */
  predicate TurnOk(t: Turn, response: string, choose: (string, seq<Rule>) -> Option<seq<Action>>) {
    t.chosen == choose(t.line, t.rules) && TurnRan(t, response)
  }

  /**
   * Turns played on `input`: each turn is threaded after the ones before it
   * (which all kept playing) on the input they left, took the first line of
   * it, chose its actions by `choose` from its line and its scene's rules,
   * and drew the response of its own number.
   */
  predicate Threaded(input: seq<string>, respond: nat -> string, choose: (string, seq<Rule>) -> Option<seq<Action>>, ts: seq<Turn>)
    decreases |ts|
  {
    ts != [] ==>
      var n := |ts| - 1;
      && Threaded(input, respond, choose, ts[..n])
      && (n > 0 ==> ts[n - 1].end.Playing?)
      && [ts[n].line] + ts[n].input == Unread(input, ts[..n])
      && TurnOk(ts[n], respond(n), choose)
  }

  /** The k-th of threaded turns, and the link between it and the next. */
  lemma {:induction false} ThreadedAt(input: seq<string>, respond: nat -> string, choose: (string, seq<Rule>) -> Option<seq<Action>>, ts: seq<Turn>, k: nat)
    requires Threaded(input, respond, choose, ts) && k < |ts|
    ensures TurnOk(ts[k], respond(k), choose)
    ensures k == 0 ==> [ts[0].line] + ts[0].input == input
    ensures k + 1 < |ts| ==> ts[k].end.Playing? && ts[k].end.rest == [ts[k + 1].line] + ts[k + 1].input
    decreases |ts|
  {
    var n := |ts| - 1;
    var before := ts[..n];
    if k < n {
      assert before[k] == ts[k];
      assert k + 1 < n ==> before[k + 1] == ts[k + 1];
      assert Threaded(input, respond, choose, ts[..|ts| - 1]);
      ThreadedAt(input, respond, choose, before, k);
    }
  }

  /** What the turns printed, one after another. */
  function Said(ts: seq<Turn>): (out: seq<string>)
    ensures ts == [] ==> out == []
  {
    if ts == [] then [] else Said(ts[..|ts| - 1]) + ts[|ts| - 1].said
  }

  /** The input left after turns that all kept playing. */
  function Unread(input: seq<string>, ts: seq<Turn>): seq<string>
    requires ts != [] ==> ts[|ts| - 1].end.Playing?
  {
    if ts == [] then input else ts[|ts| - 1].end.rest
  }

  /**
   * How a turn can end: only a turn whose line chose actions stops playing;
   * it is over exactly when the last action it ran was a quitting one, and
   * an escaped cancel comes from one of the older editors.
   */
  lemma TurnStops(t: Turn, response: string)
    requires TurnRan(t, response)
    ensures !t.end.Playing? ==> t.chosen.Some? && 0 < |t.steps| <= |t.chosen.value|
    ensures t.end.GameOver? <==> t.chosen.Some? && t.steps != [] && Ends(t.chosen.value[|t.steps| - 1])
    ensures t.end.CancelEscaped? ==> OldEditor(t.chosen.value[|t.steps| - 1])
  {
    if t.chosen.Some? {
      RanStops(t.chosen.value, t.input, t.steps, t.end);
    }
  }

  /** A non-empty input is its first line followed by the rest. */
  lemma LineAndRest(input: seq<string>)
    requires input != []
    ensures [input[0]] + input[1..] == input
  {
  }

  /** Turns that all kept playing, followed by one more on the input they left. */
  lemma ThreadedStep(input: seq<string>, respond: nat -> string, choose: (string, seq<Rule>) -> Option<seq<Action>>, ts: seq<Turn>, t: Turn)
    requires Threaded(input, respond, choose, ts) && (ts != [] ==> ts[|ts| - 1].end.Playing?)
    requires [t.line] + t.input == Unread(input, ts)
    requires TurnOk(t, respond(|ts|), choose)
    ensures Threaded(input, respond, choose, ts + [t]) && Said(ts + [t]) == Said(ts) + t.said
  {
    var more := ts + [t];
    assert more[..|ts|] == ts && more[|ts|] == t;
  }

  /**
   * Turns that all kept playing: threaded on the input, having printed `out`
   * between them and leaving `rest` unread.
   */
  predicate Going(input: seq<string>, respond: nat -> string, choose: (string, seq<Rule>) -> Option<seq<Action>>, ts: seq<Turn>, out: seq<string>, rest: seq<string>) {
    && Threaded(input, respond, choose, ts) && out == Said(ts)
    && (ts != [] ==> ts[|ts| - 1].end.Playing?) && rest == Unread(input, ts)
  }

  /** Threaded turns, having printed `out`, of which the last stopped playing with `end`. */
  predicate Stopped(input: seq<string>, respond: nat -> string, choose: (string, seq<Rule>) -> Option<seq<Action>>, ts: seq<Turn>, out: seq<string>, end: TurnEnd) {
    && ts != [] && Threaded(input, respond, choose, ts) && out == Said(ts)
    && ts[|ts| - 1].end == end && !end.Playing?
  }

  /**
   * How a game of at most `turns` turns went: its last turn stopped playing
   * with `r`, or every turn kept playing and either the input ran out before
   * the turns did (r is OutOfInput) or all the turns were played (r is
   * Playing on what is left).
   */
  predicate Played(input: seq<string>, respond: nat -> string, choose: (string, seq<Rule>) -> Option<seq<Action>>, turns: nat, ts: seq<Turn>, out: seq<string>, r: TurnEnd) {
    && |ts| <= turns
    && (|| Stopped(input, respond, choose, ts, out, r)
        || (r == OutOfInput && |ts| < turns && Going(input, respond, choose, ts, out, []))
        || (r.Playing? && |ts| == turns && Going(input, respond, choose, ts, out, r.rest)))
  }

  /** Turns that kept playing, followed by a turn on the first line they left: either still going or stopped. */
  lemma TakeTurn(input: seq<string>, respond: nat -> string, choose: (string, seq<Rule>) -> Option<seq<Action>>, ts: seq<Turn>, out: seq<string>, rest: seq<string>, t: Turn)
    requires Going(input, respond, choose, ts, out, rest) && rest != []
    requires t.line == rest[0] && t.input == rest[1..] && TurnOk(t, respond(|ts|), choose)
    ensures t.end.Playing? ==> Going(input, respond, choose, ts + [t], out + t.said, t.end.rest)
    ensures !t.end.Playing? ==> Stopped(input, respond, choose, ts + [t], out + t.said, t.end)
  {
    LineAndRest(rest);
    ThreadedStep(input, respond, choose, ts, t);
  }

  /** Chained steps that all went on, followed by the step of the next action on the input they left. */
  lemma ChainStep(todo: seq<Action>, input: seq<string>, steps: seq<Step>, step: Step)
    requires |steps| < |todo| && Chain(todo, input, steps) && (steps != [] ==> WentOn(steps[|steps| - 1]))
    requires step.input == Left(input, steps) && step.action == todo[|steps|] && Fits(step)
    ensures Chain(todo, input, steps + [step]) && Printed(steps + [step]) == Printed(steps) + step.printed
  {
    var more := steps + [step];
    assert more[..|steps|] == steps && more[|steps|] == step;
  }

  /**
   * A run stops at the first action that ends the game and runs nothing
   * after it: no action before the last step ended the game or cancelled,
   * the game is over exactly when the last action run was a quitting one,
   * and a turn that kept playing ran no quitting action at all.
   */
  lemma RanStops(todo: seq<Action>, input: seq<string>, steps: seq<Step>, r: TurnEnd)
    requires Ran(todo, input, steps, r)
    ensures forall k :: 0 <= k < |steps| - 1 ==> !Ends(todo[k]) && !steps[k].result.Canceled?
    ensures r.GameOver? <==> steps != [] && Ends(todo[|steps| - 1])
    ensures r.Playing? ==> forall k :: 0 <= k < |todo| ==> !Ends(todo[k])
    ensures r.CancelEscaped? ==> OldEditor(todo[|steps| - 1])
  {
    forall k | 0 <= k < |steps| ensures steps[k].action == todo[k] && Fits(steps[k])
      ensures k < |steps| - 1 ==> WentOn(steps[k])
    {
      ChainAt(todo, input, steps, k);
    }
  }

  /** The run of a print, a quit and a print stops after the quit: the game is over after two steps. */
  lemma QuitRunsTwo(before: string, after: string, input: seq<string>, steps: seq<Step>, r: TurnEnd)
    requires Ran([Print(before), Quit, Print(after)], input, steps, r)
    ensures |steps| == 2 && r.GameOver?
  {
    var todo := [Print(before), Quit, Print(after)];
    RanStops(todo, input, steps, r);
    assert Ends(todo[1]);
    ChainAt(todo, input, steps, 0);
  }

  /**
   * A quit in the middle of a rule's actions ends the turn: the print
   * before it runs, the print after it never does, and the turn prints the
   * text and the quit line.
   */
  lemma QuitStopsTheTurn(before: string, after: string, input: seq<string>, steps: seq<Step>, r: TurnEnd)
    requires Ran([Print(before), Quit, Print(after)], input, steps, r)
    ensures r == GameOver(input) && |steps| == 2
    ensures Printed(steps) == [before, Acts.QuitLine(steps[1].score)]
  {
    var todo := [Print(before), Quit, Print(after)];
    QuitRunsTwo(before, after, input, steps, r);
    ChainAt(todo, input, steps, 0);
    ChainAt(todo, input, steps, 1);
    assert steps[..1] == [steps[0]];
  }
}
