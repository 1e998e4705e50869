/**
 * The older editors: EditOrder, EditActionOrder, EditAction, EditPattern and
 * RemoveRule. Unlike the editors behind ":edit" and ":reorder" they do not
 * run inside handleCancel: a ":cancel" typed at the rule number leaves the
 * act as the CanceledException, which nothing in the turn catches. The
 * order lists and the add-or-remove answers are raw lines; only the rule
 * number goes through the input helpers.
 */
module Legacy {
  import opened Wrappers
  import opened Text
  import opened Actions
  import opened Rules
  import opened Scenes
  import opened Games
  import opened Util
  import opened Acts
  import opened Editors

  const OrderQuestion: string := "What would you like the new order to be? Enter a list of space-seperated numbers."
  const BadOrder: string := "Bad order!"
  const EditQuestion: string := "What rule would you like to edit?"
  const RemoveQuestion: string := "What rule would you like to remove?"

  /** How an act ends that stopped before it finished: a cancel leaves as the exception, an exhausted input as the end of the input. */
  function Halted<T>(o: Outcome<T>): (r: Outcome<Scene?>)
    requires !o.Value?
    ensures r.Canceled? <==> o.Canceled?
    ensures r.Canceled? ==> r.rest == o.rest
    ensures !r.Value?
  {
    if o.Canceled? then Canceled(o.rest) else Exhausted
  }

  // ----------------------------------------------------------- order lists

  /** One token of an order line: Integer.parseInt, and a number in [1, n] as the 0-based index it names. */
  function OrderToken(token: string, n: nat): (r: Option<int>)
    ensures r.Some? <==> ParseInt(token).Some? && 1 <= ParseInt(token).value <= n
    ensures r.Some? ==> 0 <= r.value < n && r.value == ParseInt(token).value - 1
  {
    match ParseInt(token)
    case Some(v) => if 1 <= v <= n then Some(v - 1) else None
    case None => None
  }

  /**
   * The tokens of one order line: each good token is appended to the order
   * collected so far; the first bad one clears it and prints "Bad order!".
   */
  function TakeTokens(tokens: seq<string>, n: nat, order: seq<int>): (r: (seq<int>, seq<string>))
    ensures r.1 == [] || r.1 == [BadOrder]
    ensures r.1 == [BadOrder] <==> exists k :: 0 <= k < |tokens| && OrderToken(tokens[k], n).None?
    ensures r.1 == [BadOrder] ==> r.0 == []
    ensures r.1 == [] ==> (|r.0| == |order| + |tokens| && r.0[..|order|] == order
      && forall k :: 0 <= k < |tokens| ==> OrderToken(tokens[k], n) == Some(r.0[|order| + k]))
    ensures (forall k :: 0 <= k < |order| ==> 0 <= order[k] < n) ==> forall k :: 0 <= k < |r.0| ==> 0 <= r.0[k] < n
    decreases |tokens|
  {
    if tokens == [] then (order, [])
    else
      match OrderToken(tokens[0], n)
      case None => ([], [BadOrder])
      case Some(v) =>
        var r := TakeTokens(tokens[1..], n, order + [v]);
        assert r.1 == [BadOrder] ==> exists k :: 0 <= k < |tokens| && OrderToken(tokens[k], n).None? by {
          if r.1 == [BadOrder] {
            var k :| 0 <= k < |tokens[1..]| && OrderToken(tokens[1..][k], n).None?;
            assert tokens[k + 1] == tokens[1..][k];
          }
        }
        assert r.1 == [] ==> r.0[..|order|] == (order + [v])[..|order|];
        r
  }

  /**
   * The order loop: lines are split at whitespace and their tokens
   * collected until, after a line, exactly n have been; an input that runs
   * out first ends the read.
   */
  function OrderLoop(input: seq<string>, n: nat, order: seq<int>, printed: seq<string>): (r: (Outcome<seq<int>>, seq<string>))
    ensures !r.0.Canceled?
    ensures r.0.Value? ==> |r.0.rest| <= |input| && r.0.rest == input[|input| - |r.0.rest|..]
    ensures (forall k :: 0 <= k < |order| ==> 0 <= order[k] < n) && r.0.Value? ==>
      |r.0.value| == n && forall k :: 0 <= k < n ==> 0 <= r.0.value[k] < n
    decreases |input|
  {
    if |order| == n then (Value(order, input), printed)
    else if input == [] then (Exhausted, printed)
    else
      var taken := TakeTokens(JavaSplitChars(input[0], Whitespace), n, order);
      OrderLoop(input[1..], n, taken.0, printed + taken.1)
  }

  /** One line of the order loop, while fewer or more than n indices have been collected. */
  lemma OrderLoopStep(input: seq<string>, n: nat, order: seq<int>, printed: seq<string>)
    requires |order| != n && input != []
    ensures var taken := TakeTokens(JavaSplitChars(input[0], Whitespace), n, order);
      OrderLoop(input, n, order, printed) == OrderLoop(input[1..], n, taken.0, printed + taken.1)
  {
  }

  /**
   * A line of exactly n good tokens, read first, is the order, and nothing
   * is printed; the tokens need not be distinct, so the order need not be a
   * permutation.
   */
  lemma OrderLineAccepted(input: seq<string>, n: nat)
    requires n > 0 && input != []
    requires var tokens := JavaSplitChars(input[0], Whitespace);
      |tokens| == n && forall k :: 0 <= k < n ==> OrderToken(tokens[k], n).Some?
    ensures var tokens := JavaSplitChars(input[0], Whitespace);
      var r := OrderLoop(input, n, [], []);
      r.0.Value? && r.0.rest == input[1..] && r.1 == []
      && forall k :: 0 <= k < n ==> r.0.value[k] + 1 == ParseInt(tokens[k]).value
  {
    var tokens := JavaSplitChars(input[0], Whitespace);
    var taken := TakeTokens(tokens, n, []);
    OrderLoopStep(input, n, [], []);
    assert taken.1 == [] && [] + taken.1 == [];
    assert forall k :: 0 <= k < n ==> OrderToken(tokens[k], n) == Some(taken.0[k]);
    assert OrderLoop(input[1..], n, taken.0, []) == (Value(taken.0, input[1..]), []);
  }

  /** A first line with a bad token prints "Bad order!" and the loop starts over on the next line. */
  lemma OrderLineRefused(input: seq<string>, n: nat, k: nat)
    requires n > 0 && input != []
    requires var tokens := JavaSplitChars(input[0], Whitespace);
      k < |tokens| && OrderToken(tokens[k], n).None?
    ensures OrderLoop(input, n, [], []) == OrderLoop(input[1..], n, [], [BadOrder])
  {
    var taken := TakeTokens(JavaSplitChars(input[0], Whitespace), n, []);
    OrderLoopStep(input, n, [], []);
    assert taken.0 == [] && [] + taken.1 == [BadOrder];
  }

  /** The token loop of one order line. */
  method TakeLine(tokens: seq<string>, n: nat, order: seq<int>) returns (taken: seq<int>, printed: seq<string>)
    ensures (taken, printed) == TakeTokens(tokens, n, order)
  {
    taken := order;
    var i := 0;
    while i < |tokens|
      invariant 0 <= i <= |tokens|
      invariant TakeTokens(tokens, n, order) == TakeTokens(tokens[i..], n, taken)
    {
      var num := match ParseInt(tokens[i]) case Some(v) => v case None => -1;
      if num < 1 || num > n {
        num := -1;
      }
      assert tokens[i..][0] == tokens[i] && tokens[i..][1..] == tokens[i + 1..];
      assert OrderToken(tokens[i], n) == if num != -1 then Some(num - 1) else None;
      if num != -1 {
        taken := taken + [num - 1];
      } else {
        return [], [BadOrder];
      }
      i := i + 1;
    }
    printed := [];
  }

  /** The while loop of EditOrder and EditActionOrder that reads an order of n indices. */
  method ReadOrder(input: seq<string>, n: nat) returns (r: Outcome<seq<int>>, out: seq<string>)
    ensures (r, out) == OrderLoop(input, n, [], [])
  {
    var rest := input;
    var order: seq<int> := [];
    out := [];
    while |order| != n
      invariant OrderLoop(input, n, [], []) == OrderLoop(rest, n, order, out)
      decreases |rest|
    {
      if rest == [] {
        return Exhausted, out;
      }
      var taken, printed := TakeLine(JavaSplitChars(rest[0], Whitespace), n, order);
      order, out, rest := taken, out + printed, rest[1..];
    }
    r := Value(order, rest);
  }

  /** The list rebuilt from the indices of an order, one entry per index. */
  method Picked<T>(xs: seq<T>, order: seq<int>) returns (r: seq<T>)
    requires forall k :: 0 <= k < |order| ==> 0 <= order[k] < |xs|
    ensures |r| == |order| && forall k :: 0 <= k < |order| ==> r[k] == xs[order[k]]
  {
    r := [];
    for x := 0 to |order|
      invariant |r| == x && forall k :: 0 <= k < x ==> r[k] == xs[order[k]]
    {
      r := r + [xs[order[x]]];
    }
  }

  // --------------------------------------------------------------- EditOrder

  /**
   * EditOrder.act: the view, the question, an order of as many indices as
   * the scene has rules, each new rule the old rule its index names, then
   * "Order changed: ", the view again and the scene entered again.
   */
  method EditOrder(game: Game, input: seq<string>) returns (r: Outcome<Scene?>, out: seq<string>)
    requires game.Valid() && game.current != null
    modifies game, game.current
    ensures game.Valid() && game.scenes == old(game.scenes) && game.current == old(game.current)
    ensures game.start == old(game.start) && game.adventureName == old(game.adventureName)
    ensures game.current.description == old(game.current.description)
    ensures var before := old(game.current.rules);
      var read := OrderLoop(input, |before|, [], []);
      var asked := ViewLines(game.current.name, before) + [OrderQuestion] + read.1;
      && (read.0.Value? ==>
            |game.current.rules| == |before|
            && (forall k :: 0 <= k < |before| ==> game.current.rules[k] == before[read.0.value[k]])
            && r == Value(game.current, read.0.rest)
            && out == asked + ["Order changed: "] + ViewLines(game.current.name, game.current.rules) + [game.current.description])
      && (!read.0.Value? ==> game.current.rules == before && r == Exhausted && out == asked)
  {
    var scene := game.current;
    var order, printed := ReadOrder(input, |scene.rules|);
    r, out := OrderRules(game, order, ViewLines(scene.name, scene.rules) + [OrderQuestion] + printed);
  }

  /** The second half of EditOrder: an order that was read replaces the rules, and the scene is entered again. */
  method OrderRules(game: Game, order: Outcome<seq<int>>, asked: seq<string>) returns (r: Outcome<Scene?>, out: seq<string>)
    requires game.Valid() && game.current != null && !order.Canceled?
    requires order.Value? ==> (|order.value| == |game.current.rules|
      && forall k :: 0 <= k < |order.value| ==> 0 <= order.value[k] < |game.current.rules|)
    modifies game, game.current
    ensures game.Valid() && game.scenes == old(game.scenes) && game.current == old(game.current)
    ensures game.start == old(game.start) && game.adventureName == old(game.adventureName)
    ensures game.current.description == old(game.current.description)
    ensures var before := old(game.current.rules);
      && (order.Value? ==>
            |game.current.rules| == |before|
            && (forall k :: 0 <= k < |before| ==> game.current.rules[k] == before[order.value[k]])
            && r == Value(game.current, order.rest)
            && out == asked + ["Order changed: "] + ViewLines(game.current.name, game.current.rules) + [game.current.description])
      && (!order.Value? ==> game.current.rules == before && r == Exhausted && out == asked)
  {
    var scene := game.current;
    out := asked;
    if !order.Value? {
      return Exhausted, out;
    }
    var rules := Picked(scene.rules, order.value);
    scene.rules := rules;
    out := out + ["Order changed: "] + ViewLines(scene.name, scene.rules);
    var entered: seq<string>;
    r, entered := Acts.Go(scene.name, game, order.rest);
    out := out + [scene.description];
  }

  /** Every rule after EditOrder is one of the rules before it. */
  lemma EditOrderKeepsRules(before: seq<Rule>, order: seq<int>, after: seq<Rule>)
    requires |order| == |before| == |after| && forall k :: 0 <= k < |order| ==> 0 <= order[k] < |before|
    requires forall k :: 0 <= k < |before| ==> after[k] == before[order[k]]
    ensures forall x :: x in after ==> x in before
  {
    forall x | x in after ensures x in before {
      var k :| 0 <= k < |after| && after[k] == x;
      assert before[order[k]] == x;
    }
  }

  // --------------------------------------------------------- EditActionOrder

  /** The numbered action list of EditActionOrder: the number left-aligned in five columns, a space, the command string. */
  function ActionListing(actions: seq<Action>): (lines: seq<string>)
    ensures |lines| == |actions|
    ensures forall k :: 0 <= k < |actions| ==> lines[k] == PadRight(IntToString(k + 1), 5) + " " + CommandString(actions[k])
  {
    seq(|actions|, k requires 0 <= k < |actions| => PadRight(IntToString(k + 1), 5) + " " + CommandString(actions[k]))
  }

  /**
   * EditActionOrder.act: a rule number, the rule's numbered actions, the
   * question, an order of as many indices as the rule has actions, then
   * "Order changed: " with the rule and the scene entered again.
   */
  method EditActionOrder(game: Game, input: seq<string>) returns (r: Outcome<Scene?>, out: seq<string>)
    requires game.Valid() && game.current != null
    modifies game, game.current
    ensures game.Valid() && game.scenes == old(game.scenes) && game.current == old(game.current)
    ensures game.start == old(game.start) && game.adventureName == old(game.adventureName)
    ensures game.current.description == old(game.current.description)
    ensures var before := old(game.current.rules);
      var number := RuleNumber(|before|, input);
      var question := RuleQuestion(EditQuestion, before, input);
      && (!number.Value? ==> game.current.rules == before && r == Halted(number) && out == question)
      && (number.Value? ==>
            var rule := before[number.value];
            var read := OrderLoop(number.rest, |rule.actions|, [], []);
            var asked := question + ActionListing(rule.actions) + [OrderQuestion] + read.1;
            && (!read.0.Value? ==> game.current.rules == before && r == Exhausted && out == asked)
            && (read.0.Value? ==>
                  |game.current.rules| == |before|
                  && (forall k :: 0 <= k < |before| && k != number.value ==> game.current.rules[k] == before[k])
                  && var edited := game.current.rules[number.value];
                  && edited.patterns == rule.patterns && |edited.actions| == |rule.actions|
                  && (forall k :: 0 <= k < |rule.actions| ==> edited.actions[k] == rule.actions[read.0.value[k]])
                  && r == Value(game.current, read.0.rest)
                  && out == asked + ["Order changed: " + ToString(edited), game.current.description]))
  {
    var scene := game.current;
    var number: Outcome<int>;
    number, out := GetRuleNumber(EditQuestion, scene.rules, input);
    if !number.Value? {
      return Halted(number), out;
    }
    var rule := scene.rules[number.value];
    var order, printed := ReadOrder(number.rest, |rule.actions|);
    r, out := OrderActions(game, number.value, order, out + ActionListing(rule.actions) + [OrderQuestion] + printed);
  }

  /** The second half of EditActionOrder: an order that was read replaces the actions of rule `index`, and the scene is entered again. */
  method OrderActions(game: Game, index: nat, order: Outcome<seq<int>>, asked: seq<string>) returns (r: Outcome<Scene?>, out: seq<string>)
    requires game.Valid() && game.current != null && index < |game.current.rules| && !order.Canceled?
    requires order.Value? ==> (|order.value| == |game.current.rules[index].actions|
      && forall k :: 0 <= k < |order.value| ==> 0 <= order.value[k] < |game.current.rules[index].actions|)
    modifies game, game.current
    ensures game.Valid() && game.scenes == old(game.scenes) && game.current == old(game.current)
    ensures game.start == old(game.start) && game.adventureName == old(game.adventureName)
    ensures game.current.description == old(game.current.description)
    ensures var before := old(game.current.rules);
      var rule := before[index];
      && (!order.Value? ==> game.current.rules == before && r == Exhausted && out == asked)
      && (order.Value? ==>
            |game.current.rules| == |before|
            && (forall k :: 0 <= k < |before| && k != index ==> game.current.rules[k] == before[k])
            && var edited := game.current.rules[index];
            && edited.patterns == rule.patterns && |edited.actions| == |rule.actions|
            && (forall k :: 0 <= k < |rule.actions| ==> edited.actions[k] == rule.actions[order.value[k]])
            && r == Value(game.current, order.rest)
            && out == asked + ["Order changed: " + ToString(edited), game.current.description])
  {
    var scene := game.current;
    out := asked;
    if !order.Value? {
      return Exhausted, out;
    }
    var rule := scene.rules[index];
    var actions := Picked(rule.actions, order.value);
    var edited := rule.(actions := actions);
    scene.rules := scene.rules[index := edited];
    var entered: seq<string>;
    r, entered := Acts.Go(scene.name, game, order.rest);
    out := out + ["Order changed: " + ToString(edited), scene.description];
  }

  // ------------------------------------------------ EditAction, EditPattern

  /**
   * The choice loop: the question before every line, until a line is "A"
   * or "R" in either case; true for add.
   */
  function ChoiceLoop(input: seq<string>, question: string): (r: (Outcome<bool>, seq<string>))
    ensures !r.0.Canceled?
    ensures r.0.Exhausted? ==> |r.1| == |input| + 1
    ensures r.0.Value? ==> (0 < Taken(input, r.0.rest) == |r.1| && r.0.rest == input[|r.1|..]
      && (r.0.value <==> input[|r.1| - 1] in {"A", "a"})
      && (!r.0.value <==> input[|r.1| - 1] in {"R", "r"}))
    ensures forall k :: 0 <= k < |r.1| ==> r.1[k] == question
    ensures forall k :: 0 <= k < |r.1| - 1 && k < |input| ==> input[k] !in {"A", "a", "R", "r"}
    decreases |input|
  {
    if input == [] then (Exhausted, [question])
    else if input[0] in {"A", "a"} then (Value(true, input[1..]), [question])
    else if input[0] in {"R", "r"} then (Value(false, input[1..]), [question])
    else
      var next := ChoiceLoop(input[1..], question);
      assert forall k :: 1 <= k < |next.1| && k < |input| ==> input[k] == input[1..][k - 1];
      (next.0, [question] + next.1)
  }

  /** The choice loop of EditAction and EditPattern. */
  method ReadChoice(input: seq<string>, question: string) returns (r: Outcome<bool>, out: seq<string>)
    ensures (r, out) == ChoiceLoop(input, question)
  {
    var rest := input;
    out := [];
    while true
      invariant ChoiceLoop(input, question).0 == ChoiceLoop(rest, question).0
      invariant ChoiceLoop(input, question).1 == out + ChoiceLoop(rest, question).1
      decreases |rest|
    {
      if rest == [] {
        return Exhausted, out + [question];
      }
      var choice := rest[0];
      if choice == "A" || choice == "a" {
        return Value(true, rest[1..]), out + [question];
      } else if choice == "R" || choice == "r" {
        return Value(false, rest[1..]), out + [question];
      }
      Regroup(out, [question], ChoiceLoop(rest[1..], question).1);
      out, rest := out + [question], rest[1..];
    }
  }

  /** An answer that removes: its upper-cased text starts with "Y". */
  predicate Yes(answer: string) {
    StartsWith(ToUpper(answer), "Y")
  }

  /** The positions, counting from `position` for the first answer, of the answers that remove. */
  function Confirmed(answers: seq<string>, position: int): (s: set<int>)
    ensures forall i :: i in s ==> position <= i < position + |answers|
    decreases |answers|
  {
    if answers == [] then {} else (if Yes(answers[0]) then {position} else {}) + Confirmed(answers[1..], position + 1)
  }

  /** The question asked for one entry of the removal iterator. */
  function RemoveLine(name: string): string {
    "Remove " + name + " (y/n)?"
  }

  /**
   * The removal iterator: for each entry in order, its question and an
   * answer line; an answer that starts with Y or y removes the entry. An
   * input that runs out leaves the entry asked about and those after it.
   */
  function AskRemoval<T>(items: seq<T>, names: seq<string>, input: seq<string>): (g: Gathered<T>)
    requires |names| == |items|
    ensures g.rest.Some? <==> |items| <= |input|
    ensures g.rest.Some? ==> g.rest.value == input[|items|..]
    ensures |g.printed| == (if |items| <= |input| then |items| else |input| + 1)
    ensures forall k :: 0 <= k < |g.printed| ==> g.printed[k] == RemoveLine(names[k])
    decreases |items|
  {
    if items == [] then Gathered([], Some(input), [])
    else if input == [] then Gathered(items, None, [RemoveLine(names[0])])
    else
      var next := AskRemoval(items[1..], names[1..], input[1..]);
      assert forall k :: 1 <= k < |next.printed| + 1 ==> names[k] == names[1..][k - 1];
      Gathered((if Yes(input[0]) then [] else [items[0]]) + next.items, next.rest, [RemoveLine(names[0])] + next.printed)
  }

  /** What the removal iterator keeps is what the editors' removal keeps for the positions answered with Y. */
  lemma {:induction false} AskRemovalKeeps<T>(items: seq<T>, names: seq<string>, input: seq<string>, position: int)
    requires |names| == |items|
    ensures AskRemoval(items, names, input).items == Kept(items, Confirmed(input, position), position)
    decreases |items|
  {
    if items == [] {
    } else if input == [] {
      KeptNothing(items, {}, position);
    } else {
      var tail := Confirmed(input[1..], position + 1);
      var all := Confirmed(input, position);
      AskRemovalKeeps(items[1..], names[1..], input[1..], position + 1);
      assert all - {position} == tail;
      KeptOutside(items[1..], all, position + 1, position);
    }
  }

  /** The names the action iterator shows: each action's command string. */
  function ActionNames(actions: seq<Action>): (names: seq<string>)
    ensures |names| == |actions| && forall k :: 0 <= k < |actions| ==> names[k] == CommandString(actions[k])
  {
    seq(|actions|, k requires 0 <= k < |actions| => CommandString(actions[k]))
  }

  /** What an add-or-remove editor made of one rule: the rule, the input after it (None when it ran out) and the lines printed. */
  datatype RuleEdit = RuleEdit(rule: Rule, rest: Option<seq<string>>, printed: seq<string>)

  const ActionChoice: string := "Would you like to (A)dd or (R)emove actions?"
  const PatternChoice: string := "Would you like to (A)dd or (R)emove patterns?"
  const ActionPrompt: string := "Enter actions, followed by a blank line:"
  const BadAction: string := "Bad action"

  /** The add mode of EditAction: the action lines read up to a blank line, appended to the rule's actions. */
  function AddedActions(rule: Rule, input: seq<string>): (e: RuleEdit)
    ensures var b := Block(input);
      && e.rule == rule.(actions := rule.actions + ParsedActions(b))
      && e.printed == BadLines(b, BadAction)
      && e.rest == (if |b| < |input| then Some(input[|b| + 1..]) else None)
  {
    var g := ActionLines(input, BadAction, rule.actions, []);
    ActionLinesBlock(input, BadAction, rule.actions, []);
    RuleEdit(rule.(actions := g.items), g.rest, g.printed)
  }

  /**
   * EditAction on one rule: the choice, then either action lines appended
   * until a blank line, "Bad action" for each that does not parse, or the
   * removal iterator over the actions.
   */
  function ActionEditOf(rule: Rule, input: seq<string>): (e: RuleEdit)
    ensures e.rule.patterns == rule.patterns
    ensures var choice := ChoiceLoop(input, ActionChoice).0;
      && (choice.Exhausted? ==> e.rule == rule && e.rest.None?)
      && (choice.Value? && choice.value ==>
            var b := Block(choice.rest);
            && e.rule.actions == rule.actions + ParsedActions(b)
            && e.printed == ChoiceLoop(input, ActionChoice).1 + [ActionPrompt] + BadLines(b, BadAction)
            && e.rest == (if |b| < |choice.rest| then Some(choice.rest[|b| + 1..]) else None))
      && (choice.Value? && !choice.value ==> e.rule.actions == Kept(rule.actions, Confirmed(choice.rest, 1), 1))
  {
    var choice := ChoiceLoop(input, ActionChoice);
    if !choice.0.Value? then RuleEdit(rule, None, choice.1)
    else if choice.0.value then
      var g := AddedActions(rule, choice.0.rest);
      RuleEdit(g.rule, g.rest, choice.1 + [ActionPrompt] + g.printed)
    else
      var g := AskRemoval(rule.actions, ActionNames(rule.actions), choice.0.rest);
      AskRemovalKeeps(rule.actions, ActionNames(rule.actions), choice.0.rest, 1);
      RuleEdit(rule.(actions := g.items), g.rest, choice.1 + g.printed)
  }

  const PatternPrompt: string := "Enter patterns, followed by a blank line:"

  /** The add mode of EditPattern: every line before a blank one added to the rule's pattern set. */
  function AddedPatterns(rule: Rule, input: seq<string>): (e: RuleEdit)
    ensures var b := Block(input);
      && e.rule.actions == rule.actions
      && (forall p :: p in e.rule.patterns <==> p in rule.patterns || p in b)
      && (Distinct(rule.patterns) ==> Distinct(e.rule.patterns))
      && e.printed == []
      && e.rest == (if |b| < |input| then Some(input[|b| + 1..]) else None)
  {
    var g := PatternLines(input, rule.patterns);
    PatternLinesBlock(input, rule.patterns);
    RuleEdit(rule.(patterns := g.items), g.rest, g.printed)
  }

  /**
   * EditPattern on one rule: the choice, then either every line up to a
   * blank one added to the pattern set, or the removal iterator over the
   * patterns.
   */
  function PatternEditOf(rule: Rule, input: seq<string>): (e: RuleEdit)
    ensures e.rule.actions == rule.actions
    ensures WellFormed(rule) ==> WellFormed(e.rule)
    ensures var choice := ChoiceLoop(input, PatternChoice).0;
      && (choice.Exhausted? ==> e.rule == rule && e.rest.None?)
      && (choice.Value? && choice.value ==>
            var b := Block(choice.rest);
            && (forall p :: p in e.rule.patterns <==> p in rule.patterns || p in b)
            && e.printed == ChoiceLoop(input, PatternChoice).1 + [PatternPrompt]
            && e.rest == (if |b| < |choice.rest| then Some(choice.rest[|b| + 1..]) else None))
      && (choice.Value? && !choice.value ==> e.rule.patterns == Kept(rule.patterns, Confirmed(choice.rest, 1), 1))
  {
    var choice := ChoiceLoop(input, PatternChoice);
    if !choice.0.Value? then RuleEdit(rule, None, choice.1)
    else if choice.0.value then
      var g := AddedPatterns(rule, choice.0.rest);
      assert choice.1 + [PatternPrompt] + g.printed == choice.1 + [PatternPrompt];
      RuleEdit(g.rule, g.rest, choice.1 + [PatternPrompt] + g.printed)
    else
      var g := AskRemoval(rule.patterns, rule.patterns, choice.0.rest);
      AskRemovalKeeps(rule.patterns, rule.patterns, choice.0.rest, 1);
      assert Distinct(rule.patterns) ==> Distinct(g.items) by {
        if Distinct(rule.patterns) { KeptDistinct(rule.patterns, Confirmed(choice.0.rest, 1), 1); }
      }
      RuleEdit(rule.(patterns := g.items), g.rest, choice.1 + g.printed)
  }

  /** The removal iterator. */
  method AskEach<T>(items: seq<T>, names: seq<string>, input: seq<string>) returns (g: Gathered<T>)
    requires |names| == |items|
    ensures g == AskRemoval(items, names, input)
  {
    var kept: seq<T> := [];
    var printed: seq<string> := [];
    var rest := input;
    var i := 0;
    while i < |items|
      invariant 0 <= i <= |items|
      invariant var later := AskRemoval(items[i..], names[i..], rest);
        AskRemoval(items, names, input) == Gathered(kept + later.items, later.rest, printed + later.printed)
    {
      ghost var later := AskRemoval(items[i + 1..], names[i + 1..], if rest == [] then [] else rest[1..]);
      assert items[i..][1..] == items[i + 1..] && names[i..][1..] == names[i + 1..];
      if rest == [] {
        assert AskRemoval(items[i..], names[i..], rest) == Gathered(items[i..], None, [RemoveLine(names[i])]);
        return Gathered(kept + items[i..], None, printed + [RemoveLine(names[i])]);
      }
      var mine: seq<T> := if Yes(rest[0]) then [] else [items[i]];
      assert AskRemoval(items[i..], names[i..], rest) == Gathered(mine + later.items, later.rest, [RemoveLine(names[i])] + later.printed);
      Regroup(kept, mine, later.items);
      Regroup(printed, [RemoveLine(names[i])], later.printed);
      kept, printed, rest, i := kept + mine, printed + [RemoveLine(names[i])], rest[1..], i + 1;
    }
    assert items[i..] == [] && names[i..] == [];
    assert kept + [] == kept && printed + [] == printed;
    g := Gathered(kept, Some(rest), printed);
  }

  /** EditAction on one rule: the choice loop, then the action lines or the removal iterator. */
  method EditRuleActions(rule: Rule, input: seq<string>) returns (e: RuleEdit)
    ensures e == ActionEditOf(rule, input)
  {
    var choice, asked := ReadChoice(input, ActionChoice);
    if !choice.Value? {
      return RuleEdit(rule, None, asked);
    }
    if choice.value {
      var g := ReadActions(choice.rest, BadAction, rule.actions);
      e := RuleEdit(rule.(actions := g.items), g.rest, asked + [ActionPrompt] + g.printed);
    } else {
      var g := AskEach(rule.actions, ActionNames(rule.actions), choice.rest);
      e := RuleEdit(rule.(actions := g.items), g.rest, asked + g.printed);
    }
  }

  /** EditPattern on one rule: the choice loop, then the pattern lines or the removal iterator. */
  method EditRulePatterns(rule: Rule, input: seq<string>) returns (e: RuleEdit)
    ensures e == PatternEditOf(rule, input)
  {
    var choice, asked := ReadChoice(input, PatternChoice);
    if !choice.Value? {
      return RuleEdit(rule, None, asked);
    }
    if choice.value {
      var g := ReadPatterns(choice.rest, rule.patterns);
      e := RuleEdit(rule.(patterns := g.items), g.rest, asked + [PatternPrompt] + g.printed);
    } else {
      var g := AskEach(rule.patterns, rule.patterns, choice.rest);
      e := RuleEdit(rule.(patterns := g.items), g.rest, asked + g.printed);
    }
  }

  /**
   * The end of EditAction and EditPattern: the edited rule replaces rule
   * `index` (also when the input ran out part way, as the Java lists were
   * changed in place), then the completion line and the scene entered again.
   */
  method FinishEdit(game: Game, index: nat, e: RuleEdit, asked: seq<string>, done: string) returns (r: Outcome<Scene?>, out: seq<string>)
    requires game.Valid() && game.current != null && index < |game.current.rules|
    modifies game, game.current
    ensures game.Valid() && game.scenes == old(game.scenes) && game.current == old(game.current)
    ensures game.start == old(game.start) && game.adventureName == old(game.adventureName)
    ensures game.current.description == old(game.current.description)
    ensures game.current.rules == old(game.current.rules)[index := e.rule]
    ensures e.rest.None? ==> r == Exhausted && out == asked + e.printed
    ensures e.rest.Some? ==> (r == Value(game.current, e.rest.value)
      && out == asked + e.printed + [done + ToString(e.rule), game.current.description])
  {
    var scene := game.current;
    scene.rules := scene.rules[index := e.rule];
    out := asked + e.printed;
    if e.rest.None? {
      return Exhausted, out;
    }
    var entered: seq<string>;
    r, entered := Acts.Go(scene.name, game, e.rest.value);
    out := out + [done + ToString(e.rule), scene.description];
  }

  /**
   * EditAction.act: a rule number, then the add-or-remove edit of that
   * rule's actions, "Action edit complete: " with the rule, and the scene
   * entered again.
   */
  method EditAction(game: Game, input: seq<string>) returns (r: Outcome<Scene?>, out: seq<string>)
    requires game.Valid() && game.current != null
    modifies game, game.current
    ensures game.Valid() && game.scenes == old(game.scenes) && game.current == old(game.current)
    ensures game.start == old(game.start) && game.adventureName == old(game.adventureName)
    ensures game.current.description == old(game.current.description)
    ensures var before := old(game.current.rules);
      var number := RuleNumber(|before|, input);
      var question := RuleQuestion(EditQuestion, before, input);
      && (!number.Value? ==> game.current.rules == before && r == Halted(number) && out == question)
      && (number.Value? ==>
            var e := ActionEditOf(before[number.value], number.rest);
            && game.current.rules == before[number.value := e.rule]
            && (e.rest.None? ==> r == Exhausted && out == question + e.printed)
            && (e.rest.Some? ==> (r == Value(game.current, e.rest.value)
                  && out == question + e.printed + ["Action edit complete: " + ToString(e.rule), game.current.description])))
  {
    var scene := game.current;
    var number: Outcome<int>;
    number, out := GetRuleNumber(EditQuestion, scene.rules, input);
    if !number.Value? {
      return Halted(number), out;
    }
    var e := EditRuleActions(scene.rules[number.value], number.rest);
    r, out := FinishEdit(game, number.value, e, out, "Action edit complete: ");
  }

  /**
   * EditPattern.act: a rule number, then the add-or-remove edit of that
   * rule's patterns, "Pattern edit complete: " with the rule, and the scene
   * entered again.
   */
  method EditPattern(game: Game, input: seq<string>) returns (r: Outcome<Scene?>, out: seq<string>)
    requires game.Valid() && game.current != null
    modifies game, game.current
    ensures game.Valid() && game.scenes == old(game.scenes) && game.current == old(game.current)
    ensures game.start == old(game.start) && game.adventureName == old(game.adventureName)
    ensures game.current.description == old(game.current.description)
    ensures var before := old(game.current.rules);
      var number := RuleNumber(|before|, input);
      var question := RuleQuestion(EditQuestion, before, input);
      && (!number.Value? ==> game.current.rules == before && r == Halted(number) && out == question)
      && (number.Value? ==>
            var e := PatternEditOf(before[number.value], number.rest);
            && game.current.rules == before[number.value := e.rule]
            && (e.rest.None? ==> r == Exhausted && out == question + e.printed)
            && (e.rest.Some? ==> (r == Value(game.current, e.rest.value)
                  && out == question + e.printed + ["Pattern edit complete: " + ToString(e.rule), game.current.description])))
  {
    var scene := game.current;
    var number: Outcome<int>;
    number, out := GetRuleNumber(EditQuestion, scene.rules, input);
    if !number.Value? {
      return Halted(number), out;
    }
    var e := EditRulePatterns(scene.rules[number.value], number.rest);
    r, out := FinishEdit(game, number.value, e, out, "Pattern edit complete: ");
  }

  // ---------------------------------------------------------------- RemoveRule

  /** RemoveRule.act: the rule at the number read is removed, "Done." printed and the scene entered again. */
  method RemoveRule(game: Game, input: seq<string>) returns (r: Outcome<Scene?>, out: seq<string>)
    requires game.Valid() && game.current != null
    modifies game, game.current
    ensures game.Valid() && game.scenes == old(game.scenes) && game.current == old(game.current)
    ensures game.start == old(game.start) && game.adventureName == old(game.adventureName)
    ensures game.current.description == old(game.current.description)
    ensures var before := old(game.current.rules);
      var number := RuleNumber(|before|, input);
      var question := RuleQuestion(RemoveQuestion, before, input);
      && (!number.Value? ==> game.current.rules == before && r == Halted(number) && out == question)
      && (number.Value? ==>
            |game.current.rules| == |before| - 1
            && game.current.rules == before[..number.value] + before[number.value + 1..]
            && r == Value(game.current, number.rest)
            && out == question + ["Done.", game.current.description])
  {
    var scene := game.current;
    var number: Outcome<int>;
    number, out := GetRuleNumber(RemoveQuestion, scene.rules, input);
    if !number.Value? {
      return Halted(number), out;
    }
    scene.rules := scene.rules[..number.value] + scene.rules[number.value + 1..];
    var entered: seq<string>;
    r, entered := Acts.Go(scene.name, game, number.rest);
    out := out + ["Done.", scene.description];
  }
}
