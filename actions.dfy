/**
 * The action language: the closed set of things a rule can make happen, and
 * the one-character-prefix text form in which actions are stored in an
 * adventure file (Action.commandString / Action.parseAction).
 */
module Actions {
  import opened Wrappers
  import opened Text

  /**
   * One variant per Action subclass. The last five are the anonymous actions
   * the save manager puts into the built-in command table.
   */
  datatype Action =
    | Print(text: string)
    | Go(target: string)
    | ScoreChange(change: Int32)
    | Quit
    | Restart
    | View
    | Extend
    | ScoreDisplay
    | Edit
    | Reorder
    | Remove
    | ChangeDescription
    | EditOrder
    | EditActionOrder
    | EditAction
    | EditPattern
    | RemoveRule
    | SaveGame
    | ChangeStory
    | NewStory
    | ImportStory
    | SaveAndQuit

  /**
   * The actions parseAction can produce: a score change's magnitude is a
   * non-negative int.
   */
  predicate Parseable(a: Action) {
    a.Print? || a.Go? || (a.ScoreChange? && a.change != -0x8000_0000)
    || a.Quit? || a.Restart? || a.View? || a.Extend?
  }

  /**
   * commandPrefix. Reorder and the save manager's actions define none; they
   * have no text form.
   */
  function Prefix(a: Action): Option<char> {
    match a
    case Print(_) => Some('p')
    case Go(_) => Some('g')
    case ScoreChange(change) => Some(if change >= 0 then '+' else '-')
    case Quit => Some('q')
    case Restart => Some('r')
    case View => Some('l')
    case Extend => Some('x')
    case ScoreDisplay => Some('s')
    case Edit => Some('e')
    case Remove => Some('r')
    case ChangeDescription => Some('d')
    case EditOrder => Some('o')
    case EditActionOrder => Some('o')
    case EditAction => Some('a')
    case EditPattern => Some('e')
    case RemoveRule => Some('r')
    case _ => None
  }

  /** commandBody: empty unless the variant carries data; a score change writes Math.abs of its int. */
  function Body(a: Action): string {
    match a
    case Print(text) => text
    case Go(target) => target
    case ScoreChange(change) => IntToString(Wrap32(if change >= 0 then change as int else -(change as int)))
    case _ => ""
  }

  /** commandString, which is also toString: the prefix followed by the body. */
  function CommandString(a: Action): (s: string)
    ensures Prefix(a).Some? ==> |s| >= 1 && s[0] == Prefix(a).value && s[1..] == Body(a)
  {
    (if Prefix(a).Some? then [Prefix(a).value] else "") + Body(a)
  }

  /** tryParse: the value of a non-negative integer, or -1 when there is none. */
  function TryParse(s: string): (r: int)
    ensures r >= 0 <==> ParseInt(s).Some? && ParseInt(s).value >= 0
    ensures r >= 0 ==> r == ParseInt(s).value
    ensures r < 0 ==> r == -1
  {
    match ParseInt(s)
    case Some(v) => if v >= 0 then v else -1
    case None => -1
  }

  /** parseAction: a dispatch on the first character; a character that is no known prefix means a Print of the whole text. */
  function ParseAction(s: string): (r: Option<Action>)
    ensures r.None? <==> s == "" || ((s[0] == '+' || s[0] == '-') && TryParse(s[1..]) < 0)
    ensures r.Some? ==> Parseable(r.value)
  {
    if s == "" then None
    else
      match s[0]
      case 'p' => Some(Print(s[1..]))
      case 'x' => Some(Extend)
      case '+' =>
        var up := TryParse(s[1..]);
        if up >= 0 then Some(ScoreChange(up)) else None
      case '-' =>
        var down := TryParse(s[1..]);
        if down >= 0 then Some(ScoreChange(-down)) else None
      case 'g' => Some(Go(s[1..]))
      case 'q' => Some(Quit)
      case 'r' => Some(Restart)
      case 'l' => Some(View)
      case _ => Some(Print(s))
  }

  /** The actions parsed from `lines`, in order; a line that parses to none is left out. */
  function ParsedActions(lines: seq<string>): (r: seq<Action>)
    ensures |r| <= |lines|
    ensures forall k :: 0 <= k < |r| ==> Parseable(r[k])
  {
    if lines == [] then []
    else (match ParseAction(lines[0]) case None => [] case Some(a) => [a]) + ParsedActions(lines[1..])
  }

  /** Parsing two blocks of lines gives the actions of the first followed by those of the second. */
  lemma {:induction false} ParsedActionsAppend(first: seq<string>, second: seq<string>)
    ensures ParsedActions(first + second) == ParsedActions(first) + ParsedActions(second)
    decreases |first|
  {
    if first == [] {
      assert first + second == second;
    } else {
      assert (first + second)[0] == first[0];
      assert (first + second)[1..] == first[1..] + second;
      ParsedActionsAppend(first[1..], second);
    }
  }

  /** When every line parses, nothing is left out: the k-th action is the k-th line's. */
  lemma {:induction false} ParsedActionsAll(lines: seq<string>)
    requires forall k :: 0 <= k < |lines| ==> ParseAction(lines[k]).Some?
    ensures |ParsedActions(lines)| == |lines|
    ensures forall k :: 0 <= k < |lines| ==> ParsedActions(lines)[k] == ParseAction(lines[k]).value
    decreases |lines|
  {
    if lines != [] {
      assert forall k :: 1 <= k < |lines| ==> lines[1..][k - 1] == lines[k];
      ParsedActionsAll(lines[1..]);
    }
  }

  /** The characters parseAction recognises as prefixes. */
  predicate KnownPrefix(c: char) {
    c == 'p' || c == 'x' || c == '+' || c == '-' || c == 'g' || c == 'q' || c == 'r' || c == 'l'
  }

  /** Every action parseAction can produce is read back from its own command string. */
  lemma ParseCommandString(a: Action)
    requires Parseable(a)
    ensures ParseAction(CommandString(a)) == Some(a)
  {
    var s := CommandString(a);
    if a.ScoreChange? {
      var n := if a.change >= 0 then a.change else -a.change;
      ParseIntToString(n);
      assert s[1..] == IntToString(n);
    }
  }

  /** A signed score body: '+' n gives ScoreChange(n), '-' n gives ScoreChange(-n), for every non-negative int n. */
  lemma ParseScoreChange(n: nat)
    requires n <= 0x7FFF_FFFF
    ensures ParseAction("+" + IntToString(n)) == Some(ScoreChange(n))
    ensures ParseAction("-" + IntToString(n)) == Some(ScoreChange(-(n as int)))
  {
    ParseIntToString(n);
    assert ("+" + IntToString(n))[1..] == IntToString(n);
    assert ("-" + IntToString(n))[1..] == IntToString(n);
  }

  /** 'x', 'q', 'r' and 'l' ignore whatever follows them. */
  lemma ParseIgnoresBody(c: char, rest: string)
    requires c == 'x' || c == 'q' || c == 'r' || c == 'l'
    ensures ParseAction([c] + rest) == Some(if c == 'x' then Extend else if c == 'q' then Quit else if c == 'r' then Restart else View)
  {
  }

  /** Text that does not start with a known prefix is printed as it stands. */
  lemma ParseUnknownPrefix(s: string)
    requires s != "" && !KnownPrefix(s[0])
    ensures ParseAction(s) == Some(Print(s))
  {
  }

  /**
   * The editor actions and ScoreDisplay cannot be stored: their command strings
   * parse as a Print of the command string ('e', 'd', 'o', 'a', 's') or as a
   * Restart (Remove and RemoveRule share Restart's 'r').
   */
  lemma EditorsDoNotRoundTrip(a: Action)
    requires Prefix(a).Some? && !Parseable(a) && !a.ScoreChange?
    ensures ParseAction(CommandString(a)) == if Prefix(a) == Some('r') then Some(Restart) else Some(Print(CommandString(a)))
    ensures ParseAction(CommandString(a)) != Some(a)
  {
  }
}
