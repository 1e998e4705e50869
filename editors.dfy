/**
 * The in-game editors behind ":edit", ":reorder", ":remove" and
 * ":description": each works on the current scene, reads its choices through
 * the input helpers and runs inside handleCancel, so a ":cancel" ends it
 * with "Canceled." and whatever it had already changed.
 */
module Editors {
  import opened Wrappers
  import opened Text
  import opened Actions
  import opened Rules
  import opened Scenes
  import opened Games
  import opened Util
  import opened Acts

  // -------------------------------------------------------- list surgery

  /**
   * What is left of `xs` after the iterator removes every element whose
   * 1-based position (counting from `position` for xs[0]) is selected.
   */
  function Kept<T>(xs: seq<T>, selected: set<int>, position: int): seq<T>
    decreases |xs|
  {
    if xs == [] then []
    else (if position in selected then [] else [xs[0]]) + Kept(xs[1..], selected, position + 1)
  }

  /** What is kept is a sub-multiset of the list. */
  lemma {:induction false} KeptSubset<T>(xs: seq<T>, selected: set<int>, position: int)
    ensures multiset(Kept(xs, selected, position)) <= multiset(xs)
    decreases |xs|
  {
    if xs != [] {
      KeptSubset(xs[1..], selected, position + 1);
      assert xs == [xs[0]] + xs[1..];
    }
  }

  /** An element at an unselected position is kept. */
  lemma {:induction false} KeptKeeps<T>(xs: seq<T>, selected: set<int>, position: int, k: nat)
    requires k < |xs| && position + k !in selected
    ensures xs[k] in Kept(xs, selected, position)
    decreases |xs|
  {
    if k != 0 {
      KeptKeeps(xs[1..], selected, position + 1, k - 1);
    }
  }

  /** Every element kept stands at an unselected position. */
  lemma {:induction false} KeptFrom<T>(xs: seq<T>, selected: set<int>, position: int, j: nat)
    requires j < |Kept(xs, selected, position)|
    ensures exists k :: 0 <= k < |xs| && position + k !in selected && Kept(xs, selected, position)[j] == xs[k]
    decreases |xs|
  {
    var r := Kept(xs, selected, position);
    if position !in selected && j == 0 {
      assert r[0] == xs[0];
    } else {
      var i := if position in selected then j else j - 1;
      var tail := Kept(xs[1..], selected, position + 1);
      assert r[j] == tail[i];
      KeptFrom(xs[1..], selected, position + 1, i);
      var k :| 0 <= k < |xs[1..]| && position + 1 + k !in selected && tail[i] == xs[1..][k];
      assert r[j] == xs[k + 1];
    }
  }

  /** Removing nothing keeps the whole list. */
  lemma {:induction false} KeptNothing<T>(xs: seq<T>, selected: set<int>, position: int)
    requires forall i :: i in selected ==> !(position <= i < position + |xs|)
    ensures Kept(xs, selected, position) == xs
    decreases |xs|
  {
    if xs != [] {
      KeptNothing(xs[1..], selected, position + 1);
    }
  }

  /** What is kept of a set of patterns is still a set. */
  lemma {:induction false} KeptDistinct(xs: seq<string>, selected: set<int>, position: int)
    requires Distinct(xs)
    ensures Distinct(Kept(xs, selected, position))
    decreases |xs|
  {
    if xs != [] {
      KeptDistinct(xs[1..], selected, position + 1);
      var tail := Kept(xs[1..], selected, position + 1);
      forall j | 0 <= j < |tail| ensures tail[j] != xs[0] {
        KeptFrom(xs[1..], selected, position + 1, j);
      }
    }
  }

  /** A position before the list's own positions cannot select anything. */
  lemma {:induction false} KeptOutside<T>(xs: seq<T>, selected: set<int>, position: int, x: int)
    requires x < position
    ensures Kept(xs, selected - {x}, position) == Kept(xs, selected, position)
    decreases |xs|
  {
    if xs != [] {
      KeptOutside(xs[1..], selected, position + 1, x);
    }
  }

  /** When every selected position names an element, exactly that many elements go. */
  lemma {:induction false} KeptLength<T>(xs: seq<T>, selected: set<int>, position: int)
    requires forall i :: i in selected ==> position <= i < position + |xs|
    ensures |Kept(xs, selected, position)| == |xs| - |selected|
    decreases |xs|
  {
    if xs == [] {
      assert selected == {};
    } else {
      var others := selected - {position};
      KeptOutside(xs[1..], selected, position + 1, position);
      KeptLength(xs[1..], others, position + 1);
      if position in selected {
        assert |others| == |selected| - 1;
      } else {
        assert others == selected;
      }
    }
  }

  /**
   * Removal keeps order: what is kept of two lists one after the other is
   * what is kept of the first followed by what is kept of the second.
   */
  lemma {:induction false} KeptAppend<T>(xs: seq<T>, ys: seq<T>, selected: set<int>, position: int)
    ensures Kept(xs + ys, selected, position) == Kept(xs, selected, position) + Kept(ys, selected, position + |xs|)
    decreases |xs|
  {
    if xs == [] {
      assert xs + ys == ys;
    } else {
      assert (xs + ys)[0] == xs[0] && (xs + ys)[1..] == xs[1..] + ys;
      KeptAppend(xs[1..], ys, selected, position + 1);
      Regroup(if position in selected then [] else [xs[0]], Kept(xs[1..], selected, position + 1), Kept(ys, selected, position + |xs|));
    }
  }

  /** Some element at a position the list of 1-based positions does not name equals x. */
  predicate Unselected<T(==)>(xs: seq<T>, positions: seq<int>, x: T) {
    exists k :: 0 <= k < |xs| && k + 1 !in positions && xs[k] == x
  }

  /** Membership in what is kept is membership at an unselected position. */
  lemma KeptMembers<T>(xs: seq<T>, positions: seq<int>)
    ensures forall x :: x in Kept(xs, Elements(positions), 1) <==> Unselected(xs, positions, x)
  {
    var kept := Kept(xs, Elements(positions), 1);
    forall x ensures x in kept <==> Unselected(xs, positions, x) {
      if x in kept {
        var j :| 0 <= j < |kept| && kept[j] == x;
        KeptFrom(xs, Elements(positions), 1, j);
      }
      if Unselected(xs, positions, x) {
        var k :| 0 <= k < |xs| && k + 1 !in positions && xs[k] == x;
        KeptKeeps(xs, Elements(positions), 1, k);
      }
    }
  }

  /** The list rebuilt from an order of 1-based positions: entry k is the element at order[k]. */
  function Permuted<T>(xs: seq<T>, order: seq<int>): (r: seq<T>)
    requires forall k :: 0 <= k < |order| ==> 1 <= order[k] <= |xs|
    ensures |r| == |order|
    ensures forall k :: 0 <= k < |order| ==> r[k] == xs[order[k] - 1]
  {
    seq(|order|, k requires 0 <= k < |order| => xs[order[k] - 1])
  }

  /** An order naming every position once rebuilds a permutation: the same elements, as often each. */
  lemma {:induction false} PermutedMultiset<T>(xs: seq<T>, order: seq<int>)
    requires |order| == |xs| && NoDuplicates(order)
    requires forall k :: 0 <= k < |order| ==> 1 <= order[k] <= |xs|
    ensures multiset(Permuted(xs, order)) == multiset(xs)
    decreases |xs|
  {
    var n := |xs|;
    if n != 0 {
      DistinctInRangeCoversAll(order, n);
      assert n in order;
      var j :| 0 <= j < n && order[j] == n;
      var shorter := order[..j] + order[j + 1..];
      DropLast(order, j);
      PermutedMultiset(xs[..n - 1], shorter);
      PermutedLast(xs, order, j);
    }
  }

  /** The inductive step: when the shorter order keeps the front's multiset, the whole order keeps the list's. */
  lemma PermutedLast<T>(xs: seq<T>, order: seq<int>, j: nat)
    requires |order| == |xs| && j < |order| && order[j] == |order|
    requires forall k :: 0 <= k < |order| ==> 1 <= order[k] <= |xs|
    requires var shorter := order[..j] + order[j + 1..];
      && (forall k :: 0 <= k < |shorter| ==> 1 <= shorter[k] <= |xs| - 1)
      && multiset(Permuted(xs[..|xs| - 1], shorter)) == multiset(xs[..|xs| - 1])
    ensures multiset(Permuted(xs, order)) == multiset(xs)
  {
    var shorter := order[..j] + order[j + 1..];
    PermutedSplit(xs, order, j);
    InsertedMultiset(Permuted(xs[..|xs| - 1], shorter), j, xs[|xs| - 1]);
    MultisetOfLast(xs);
  }

  /** A list's multiset is that of all but its last element, plus the last. */
  lemma MultisetOfLast<T>(xs: seq<T>)
    requires xs != []
    ensures multiset(xs) == multiset(xs[..|xs| - 1]) + multiset{xs[|xs| - 1]}
  {
    assert xs == xs[..|xs| - 1] + [xs[|xs| - 1]];
  }

  /** Putting x anywhere into a list adds x to its multiset. */
  lemma InsertedMultiset<T>(p: seq<T>, j: nat, x: T)
    requires j <= |p|
    ensures multiset(p[..j] + [x] + p[j..]) == multiset(p) + multiset{x}
  {
    assert p == p[..j] + p[j..];
  }

  /** Without the position of its largest entry, an order of 1..n is an order of 1..n-1. */
  lemma DropLast(order: seq<int>, j: nat)
    requires j < |order| && order[j] == |order| && NoDuplicates(order)
    requires forall k :: 0 <= k < |order| ==> 1 <= order[k] <= |order|
    ensures var shorter := order[..j] + order[j + 1..];
      |shorter| == |order| - 1 && NoDuplicates(shorter)
      && forall k :: 0 <= k < |shorter| ==> 1 <= shorter[k] <= |order| - 1
  {
    var shorter := order[..j] + order[j + 1..];
    assert forall k :: 0 <= k < |shorter| ==> shorter[k] == (if k < j then order[k] else order[k + 1]);
  }

  /** Rebuilding with the largest position at j puts the last element at j among the others. */
  lemma PermutedSplit<T>(xs: seq<T>, order: seq<int>, j: nat)
    requires |order| == |xs| && j < |order| && order[j] == |order|
    requires forall k :: 0 <= k < |order| ==> 1 <= order[k] <= |xs|
    requires var shorter := order[..j] + order[j + 1..];
      forall k :: 0 <= k < |shorter| ==> 1 <= shorter[k] <= |xs| - 1
    ensures var p := Permuted(xs[..|xs| - 1], order[..j] + order[j + 1..]);
      Permuted(xs, order) == p[..j] + [xs[|xs| - 1]] + p[j..]
  {
    var shorter := order[..j] + order[j + 1..];
    var p := Permuted(xs[..|xs| - 1], shorter);
    var q := p[..j] + [xs[|xs| - 1]] + p[j..];
    var whole := Permuted(xs, order);
    assert |whole| == |q|;
    forall k | 0 <= k < |q| ensures whole[k] == q[k] {
      if k < j {
        assert q[k] == p[k] && shorter[k] == order[k];
      } else if k > j {
        assert q[k] == p[k - 1] && shorter[k - 1] == order[k];
      }
    }
  }

  // ------------------------------------------------------------------ Edit

  /** Where an edit stands when it stops: the rules as changed so far, how it stopped, and what it printed. */
  datatype Edited = Edited(rules: seq<Rule>, flow: Outcome<()>, out: seq<string>)

  /** A flow ended the way a read ended, with nothing read. */
  function Stopped<T>(read: Outcome<T>): Outcome<()> {
    match read
    case Value(_, rest) => Value((), rest)
    case Canceled(rest) => Canceled(rest)
    case Exhausted => Exhausted
  }

  const EditChoices: seq<string> := ["Edit patterns", "Edit actions", "Reorder actions"]


  /** The question an editor asks, followed by the entries it numbers from 1. */
  function Listing(question: string, entries: seq<string>): seq<string> {
    [question] + NumberedList(1, 0, SingleLines(entries))
  }

  /** readList for the patterns to add: any trimmed line, a blank line ends the list. */
  function PatternsRead(input: seq<string>): (Outcome<seq<string>>, seq<string>) {
    ReadListFrom(input, "Patterns to add: ", "Bad pattern!", Identity, "List error?", AnyList(), [], [])
  }

  /** readList for the actions to add: lines that parse as actions, a blank line ends the list. */
  function ActionsRead(input: seq<string>): (Outcome<seq<Action>>, seq<string>) {
    ReadListFrom(input, "Actions to add: ", "Bad pattern!", ParseAction, "List error?", AnyList(), [], [])
  }

  /** The new patterns joined to the rule's set; a cancel or the end of input adds none. */
  function AddPatternsOf(rule: Rule, input: seq<string>): (r: (Rule, Outcome<()>, seq<string>))
    ensures r.0.actions == rule.actions
    ensures !r.1.Value? ==> r.0 == rule
    ensures WellFormed(rule) ==> WellFormed(r.0)
  {
    var added := PatternsRead(input);
    match added.0
    case Value(items, tail) => (rule.(patterns := InsertAll(rule.patterns, items)), Value((), tail), added.1)
    case _ => (rule, Stopped(added.0), added.1)
  }

  /** editPatterns once the positions to remove are read: they are removed, then the new patterns added. */
  function PatternsAfter(rule: Rule, chosen: Outcome<seq<int>>): (r: (Rule, Outcome<()>, seq<string>))
    ensures r.0.actions == rule.actions
    ensures !chosen.Value? ==> r == (rule, Stopped(chosen), [])
  {
    match chosen
    case Value(positions, rest) => AddPatternsOf(rule.(patterns := Kept(rule.patterns, Elements(positions), 1)), rest)
    case _ => (rule, Stopped(chosen), [])
  }

  /**
   * editPatterns on one rule: the patterns are listed, the positions to
   * remove read as distinct ints in [1, n] and removed, then the new
   * patterns added. A cancel while adding keeps the removals.
   */
  function EditPatternsOf(rule: Rule, input: seq<string>): (r: (Rule, Outcome<()>, seq<string>))
    ensures r.0.actions == rule.actions
  {
    var chosen := ReadIntsLoop(input, "Bad list!", MinMax(1, |rule.patterns|), []);
    var after := PatternsAfter(rule, chosen.0);
    (after.0, after.1,
     Listing("Which patterns would you like to remove? Enter a list of space-separated integers.", rule.patterns) + chosen.1 + after.2)
  }

  /**
   * The rule editPatterns leaves after removing `positions` and reading the
   * rest: a pattern is in it exactly when it stood at a position not chosen
   * or was added, when the list was read to its end.
   */
  ghost predicate PatternsAfterMeans(rule: Rule, positions: seq<int>, rest: seq<string>, r: (Rule, Outcome<()>, seq<string>)) {
    var added := PatternsRead(rest).0;
    && (r.1.Value? <==> added.Value?)
    && forall p :: p in r.0.patterns <==> Unselected(rule.patterns, positions, p) || (added.Value? && p in added.value)
  }

  /**
   * What editPatterns leaves: nothing changes unless the positions are read,
   * after which PatternsAfterMeans holds; the patterns stay a set.
   */
  lemma EditPatternsMeans(rule: Rule, input: seq<string>)
    ensures var chosen := ReadIntsLoop(input, "Bad list!", MinMax(1, |rule.patterns|), []).0;
      !chosen.Value? ==> EditPatternsOf(rule, input).0 == rule && EditPatternsOf(rule, input).1 == Stopped(chosen)
    ensures var chosen := ReadIntsLoop(input, "Bad list!", MinMax(1, |rule.patterns|), []).0;
      chosen.Value? ==> PatternsAfterMeans(rule, chosen.value, chosen.rest, EditPatternsOf(rule, input))
    ensures WellFormed(rule) ==> WellFormed(EditPatternsOf(rule, input).0)
  {
    var chosen := ReadIntsLoop(input, "Bad list!", MinMax(1, |rule.patterns|), []).0;
    var after := PatternsAfter(rule, chosen);
    assert EditPatternsOf(rule, input).0 == after.0 && EditPatternsOf(rule, input).1 == after.1;
    if chosen.Value? {
      RemovedThenInserted(rule, chosen.value, chosen.rest);
    }
  }

  /** Removing positions, then adding what readList gives. */
  lemma RemovedThenInserted(rule: Rule, positions: seq<int>, rest: seq<string>)
    ensures PatternsAfterMeans(rule, positions, rest, PatternsAfter(rule, Value(positions, rest)))
    ensures WellFormed(rule) ==> WellFormed(PatternsAfter(rule, Value(positions, rest)).0)
  {
    KeptMembers(rule.patterns, positions);
    if WellFormed(rule) {
      KeptDistinct(rule.patterns, Elements(positions), 1);
    }
  }

  /** The new actions appended to the rule's list; a cancel or the end of input adds none. */
  function AddActionsOf(rule: Rule, input: seq<string>): (r: (Rule, Outcome<()>, seq<string>))
    ensures r.0.patterns == rule.patterns
    ensures !r.1.Value? ==> r.0 == rule
    ensures |rule.actions| <= |r.0.actions| && r.0.actions[..|rule.actions|] == rule.actions
  {
    var added := ActionsRead(input);
    match added.0
    case Value(items, tail) => (rule.(actions := rule.actions + items), Value((), tail), added.1)
    case _ => (rule, Stopped(added.0), added.1)
  }

  /** editActions once the positions to remove are read: they are removed, then the new actions appended. */
  function ActionsAfter(rule: Rule, chosen: Outcome<seq<int>>): (r: (Rule, Outcome<()>, seq<string>))
    ensures r.0.patterns == rule.patterns
    ensures !chosen.Value? ==> r == (rule, Stopped(chosen), [])
  {
    match chosen
    case Value(positions, rest) => AddActionsOf(rule.(actions := Kept(rule.actions, Elements(positions), 1)), rest)
    case _ => (rule, Stopped(chosen), [])
  }

  /**
   * editActions on one rule: the actions are listed, the positions read are
   * removed with the others kept in order, then the newly parsed actions are
   * appended. A cancel while adding keeps the removals.
   */
  function EditActionsOf(rule: Rule, input: seq<string>): (r: (Rule, Outcome<()>, seq<string>))
    ensures r.0.patterns == rule.patterns
  {
    var chosen := ReadIntsLoop(input, "Bad list!", MinMax(1, |rule.actions|), []);
    var after := ActionsAfter(rule, chosen.0);
    (after.0, after.1,
     Listing("Which actions would you like to remove? Enter a list of space-separated integers.", Commands(rule.actions)) + chosen.1 + after.2)
  }

  /**
   * What editActions leaves: nothing changes unless the positions are read;
   * after that the list starts with the actions at the positions not chosen
   * (one fewer for every position chosen) and ends with the ones added.
   */
  lemma EditActionsMeans(rule: Rule, input: seq<string>)
    ensures var chosen := ReadIntsLoop(input, "Bad list!", MinMax(1, |rule.actions|), []).0;
      !chosen.Value? ==> EditActionsOf(rule, input).0 == rule && EditActionsOf(rule, input).1 == Stopped(chosen)
    ensures var chosen := ReadIntsLoop(input, "Bad list!", MinMax(1, |rule.actions|), []).0;
      chosen.Value? ==> ActionsAfterMeans(rule, chosen.value, chosen.rest, EditActionsOf(rule, input))
  {
    var chosen := ReadIntsLoop(input, "Bad list!", MinMax(1, |rule.actions|), []).0;
    var after := ActionsAfter(rule, chosen);
    assert EditActionsOf(rule, input).0 == after.0 && EditActionsOf(rule, input).1 == after.1;
    if chosen.Value? {
      RemovedThenAdded(rule, chosen.value, chosen.rest);
    }
  }

  /**
   * The rule editActions leaves after removing `positions` and reading the
   * rest: the actions at the positions not chosen, in their old order and
   * one fewer for each position, then the ones added, if the list was read
   * to its end.
   */
  ghost predicate ActionsAfterMeans(rule: Rule, positions: seq<int>, rest: seq<string>, r: (Rule, Outcome<()>, seq<string>)) {
    var added := ActionsRead(rest).0;
    var kept := |rule.actions| - |positions|;
    && (r.1.Value? <==> added.Value?)
    && 0 <= kept <= |r.0.actions|
    && r.0.actions[..kept] == Kept(rule.actions, Elements(positions), 1)
    && (forall a :: a in r.0.actions[..kept] <==> Unselected(rule.actions, positions, a))
    && (added.Value? ==> r.0.actions[kept..] == added.value)
    && (!added.Value? ==> |r.0.actions| == kept)
  }

  /** Removing distinct positions in range, then appending what readList gives. */
  lemma RemovedThenAdded(rule: Rule, positions: seq<int>, rest: seq<string>)
    requires NoDuplicates(positions) && forall k :: 0 <= k < |positions| ==> 1 <= positions[k] <= |rule.actions|
    ensures ActionsAfterMeans(rule, positions, rest, ActionsAfter(rule, Value(positions, rest)))
  {
    ElementCount(positions);
    KeptLength(rule.actions, Elements(positions), 1);
    KeptMembers(rule.actions, positions);
  }

  /**
   * An order read as exactly n distinct ints in [1, n], n the length of the
   * list, and the list rebuilt in that order: a permutation of it.
   */
  function OrderOf<T>(xs: seq<T>, input: seq<string>): (r: (seq<T>, Outcome<()>, seq<string>))
    ensures multiset(r.0) == multiset(xs)
    ensures !r.1.Value? ==> r.0 == xs
    ensures r.1.Value? <==> ReadIntsLoop(input, "Bad list!", Counted(1, |xs|, |xs|, |xs|), []).0.Value?
  {
    var n := |xs|;
    var chosen := ReadIntsLoop(input, "Bad list!", Counted(1, n, n, n), []);
    match chosen.0
    case Value(order, rest) =>
      PermutedMultiset(xs, order);
      (Permuted(xs, order), Value((), rest), chosen.1)
    case _ => (xs, Stopped(chosen.0), chosen.1)
  }

  /** reorderActions on one rule: the actions listed, then rebuilt in the order read. */
  function ReorderActionsOf(rule: Rule, input: seq<string>): (r: (Rule, Outcome<()>, seq<string>))
    ensures r.0.patterns == rule.patterns && multiset(r.0.actions) == multiset(rule.actions)
    ensures !r.1.Value? ==> r.0 == rule
  {
    var order := OrderOf(rule.actions, input);
    (rule.(actions := order.0), order.1,
     Listing("Enter the new action order as a list of space-separated integers.", Commands(rule.actions)) + order.2)
  }

  /** The edit an option performs on one rule: options outside 0..2 leave it alone. */
  function OptionStep(rule: Rule, option: int, input: seq<string>): (r: (Rule, Outcome<()>, seq<string>))
    ensures !(0 <= option <= 2) ==> r == (rule, Value((), input), [])
  {
    if option == 0 then EditPatternsOf(rule, input)
    else if option == 1 then EditActionsOf(rule, input)
    else if option == 2 then ReorderActionsOf(rule, input)
    else (rule, Value((), input), [])
  }

  /**
   * The edit the option chosen performs on rule i, followed by "Edit
   * complete." when it finishes; an option outside 0..2 edits nothing.
   */
  function EditOption(rules: seq<Rule>, i: nat, option: int, input: seq<string>, out: seq<string>): (e: Edited)
    requires i < |rules|
    ensures |e.rules| == |rules| && forall k :: 0 <= k < |rules| && k != i ==> e.rules[k] == rules[k]
    ensures !(0 <= option <= 2) ==> e.rules == rules && e.flow == Value((), input)
    ensures e.flow.Value? ==> e.out != [] && e.out[|e.out| - 1] == "Edit complete."
  {
    var step := OptionStep(rules[i], option, input);
    Edited(rules[i := step.0], step.1, out + step.2 + (if step.1.Value? then ["Edit complete."] else []))
  }

  /** EditOption in terms of the step it runs. */
  lemma EditOptionUnfolds(rules: seq<Rule>, i: nat, option: int, input: seq<string>, out: seq<string>)
    requires i < |rules|
    ensures var step := OptionStep(rules[i], option, input);
      EditOption(rules, i, option, input, out) == Edited(rules[i := step.0], step.1, out + step.2 + (if step.1.Value? then ["Edit complete."] else []))
  {
  }

  /** The option question Edit asks once it has a rule. */
  function OptionQuestion(): seq<string> {
    ["What would you like to do?"] + NumberedList(1, 0, SingleLines(EditChoices))
  }

  /** The edit once the option is read for rule i: an option read picks the edit, anything else stops. */
  function EditOptionRead(rules: seq<Rule>, i: nat, option: Outcome<int>, asked: seq<string>): (e: Edited)
    requires i < |rules|
    ensures |e.rules| == |rules| && forall k :: 0 <= k < |rules| && k != i ==> e.rules[k] == rules[k]
    ensures !option.Value? ==> e == Edited(rules, Stopped(option), asked)
    ensures e.flow.Value? ==> e.out != [] && e.out[|e.out| - 1] == "Edit complete."
  {
    match option
    case Value(o, tail) => EditOption(rules, i, o - 1, tail, asked)
    case _ => Edited(rules, Stopped(option), asked)
  }

  /** The edit once the rule number is read: the option question, then the option read in [0, 3]. */
  function EditChosen(rules: seq<Rule>, number: Outcome<int>, out: seq<string>): (e: Edited)
    requires number.Value? ==> 0 <= number.value < |rules|
    ensures |e.rules| == |rules|
    ensures !number.Value? ==> e == Edited(rules, Stopped(number), out)
    ensures number.Value? ==> forall k :: 0 <= k < |rules| && k != number.value ==> e.rules[k] == rules[k]
    ensures number.Value? && !ReadLoop(number.rest, "Not a valid choice", InRange(0, 3)).0.Value? ==> e.rules == rules
    ensures e.flow.Value? ==> e.out != [] && e.out[|e.out| - 1] == "Edit complete."
  {
    match number
    case Value(i, rest) =>
      var option := ReadLoop(rest, "Not a valid choice", InRange(0, 3));
      EditOptionRead(rules, i, option.0, out + OptionQuestion() + option.1)
    case _ => Edited(rules, Stopped(number), out)
  }

  /**
   * The task Edit runs inside handleCancel: a rule number, then an option
   * read in [0, 3] and decremented; 0, 1 and 2 pick the edit, and -1 (the
   * user typed 0) edits nothing. Only the rule chosen can change, and
   * nothing changes when the read stops before an option is chosen.
   */
  function EditRun(rules: seq<Rule>, input: seq<string>): (e: Edited)
    ensures |e.rules| == |rules|
    ensures var number := RuleNumber(|rules|, input);
      && (!number.Value? ==> e.rules == rules && e.flow == Stopped(number))
      && (number.Value? ==> forall k :: 0 <= k < |rules| && k != number.value ==> e.rules[k] == rules[k])
      && (number.Value? && !ReadLoop(number.rest, "Not a valid choice", InRange(0, 3)).0.Value? ==> e.rules == rules)
    ensures e.flow.Value? ==> e.out != [] && e.out[|e.out| - 1] == "Edit complete."
  {
    EditChosen(rules, RuleNumber(|rules|, input), RuleQuestion("What rule would you like to edit?", rules, input))
  }

  /** The question Remove and Edit ask, the rules numbered, and the lines printed while reading the number. */
  function RuleQuestion(prompt: string, rules: seq<Rule>, input: seq<string>): seq<string> {
    [prompt] + NumberedList(1, 0, PrettyRules(rules)) + ReadLoop(input, "Not a valid rule number.", InRange(1, |rules|)).1
  }

  /** How an act that ran in handleCancel ends: the current scene, with "Canceled." after a cancel. */
  function Conclude(current: Scene?, flow: Outcome<()>, out: seq<string>): (r: (Outcome<Scene?>, seq<string>))
    ensures r.0.Exhausted? <==> flow.Exhausted?
    ensures !flow.Exhausted? ==> r.0 == Value(current, flow.rest)
    ensures r.1 == out + (if flow.Canceled? then [CanceledMessage] else [])
  {
    var task: Outcome<Scene?> := match flow
      case Value(_, rest) => Value(current, rest)
      case Canceled(rest) => Canceled(rest)
      case Exhausted => Exhausted;
    var handled := HandleCancel(current, task);
    (handled.0, out + handled.1)
  }

  /** A task that finishes leaves its output as it is and the turn with the current scene. */
  lemma ConcludeValue(current: Scene?, rest: seq<string>, out: seq<string>)
    ensures Conclude(current, Value((), rest), out) == (Value(current, rest), out)
  {
    assert out + [] == out;
  }

  // --------------------------------------------------------------- methods

  /** The iterator loop that removes the elements at the selected 1-based positions. */
  method RemoveSelected<T(==)>(xs: seq<T>, selected: set<int>) returns (kept: seq<T>)
    ensures kept == Kept(xs, selected, 1)
  {
    kept := [];
    var count := 1;
    while count <= |xs|
      invariant 1 <= count <= |xs| + 1
      invariant Kept(xs, selected, 1) == kept + Kept(xs[count - 1..], selected, count)
    {
      var rest := xs[count - 1..];
      assert rest[1..] == xs[count..];
      if count !in selected {
        kept := kept + [xs[count - 1]];
      }
      count := count + 1;
    }
  }

  /** The for loop that collects, for each position of the order, the element there. */
  method Rearranged<T>(xs: seq<T>, order: seq<int>) returns (r: seq<T>)
    requires forall k :: 0 <= k < |order| ==> 1 <= order[k] <= |xs|
    ensures r == Permuted(xs, order)
  {
    r := [];
    for j := 0 to |order|
      invariant |r| == j && forall k :: 0 <= k < j ==> r[k] == xs[order[k] - 1]
    {
      r := r + [xs[order[j] - 1]];
    }
  }

  /** The addAll of editPatterns on rule `index` of the scene. */
  method AddPatterns(scene: Scene, index: nat, input: seq<string>) returns (flow: Outcome<()>, out: seq<string>)
    requires index < |scene.rules|
    modifies scene
    ensures var step := AddPatternsOf(old(scene.rules[index]), input);
      scene.rules == old(scene.rules)[index := step.0] && flow == step.1 && out == step.2
    ensures scene.description == old(scene.description)
  {
    var rule := scene.rules[index];
    var added: Outcome<seq<string>>;
    added, out := ReadList(input, "Patterns to add: ", "Bad pattern!", Identity, "List error?", AnyList());
    if !added.Value? {
      return Stopped(added), out;
    }
    scene.rules := scene.rules[index := rule.(patterns := InsertAll(rule.patterns, added.value))];
    flow := Value((), added.rest);
  }

  /** Edit.editPatterns on rule `index` of the scene. */
  method EditPatterns(scene: Scene, index: nat, input: seq<string>) returns (flow: Outcome<()>, out: seq<string>)
    requires index < |scene.rules|
    modifies scene
    ensures var step := EditPatternsOf(old(scene.rules[index]), input);
      scene.rules == old(scene.rules)[index := step.0] && flow == step.1 && out == step.2
    ensures scene.description == old(scene.description)
  {
    var rule := scene.rules[index];
    var chosen, printed := ReadIntsInRange(input, "Bad list!", 1, |rule.patterns|);
    out := Listing("Which patterns would you like to remove? Enter a list of space-separated integers.", rule.patterns) + printed;
    if !chosen.Value? {
      assert out + [] == out;
      return Stopped(chosen), out;
    }
    var kept := RemoveSelected(rule.patterns, Elements(chosen.value));
    scene.rules := scene.rules[index := rule.(patterns := kept)];
    var listed: seq<string>;
    flow, listed := AddPatterns(scene, index, chosen.rest);
    out := out + listed;
  }

  /** The addAll of editActions on rule `index` of the scene. */
  method AddActions(scene: Scene, index: nat, input: seq<string>) returns (flow: Outcome<()>, out: seq<string>)
    requires index < |scene.rules|
    modifies scene
    ensures var step := AddActionsOf(old(scene.rules[index]), input);
      scene.rules == old(scene.rules)[index := step.0] && flow == step.1 && out == step.2
    ensures scene.description == old(scene.description)
  {
    var rule := scene.rules[index];
    var added: Outcome<seq<Action>>;
    added, out := ReadList(input, "Actions to add: ", "Bad pattern!", ParseAction, "List error?", AnyList());
    if !added.Value? {
      return Stopped(added), out;
    }
    scene.rules := scene.rules[index := rule.(actions := rule.actions + added.value)];
    flow := Value((), added.rest);
  }

  /** Edit.editActions on rule `index` of the scene. */
  method EditActions(scene: Scene, index: nat, input: seq<string>) returns (flow: Outcome<()>, out: seq<string>)
    requires index < |scene.rules|
    modifies scene
    ensures var step := EditActionsOf(old(scene.rules[index]), input);
      scene.rules == old(scene.rules)[index := step.0] && flow == step.1 && out == step.2
    ensures scene.description == old(scene.description)
  {
    var rule := scene.rules[index];
    var chosen, printed := ReadIntsInRange(input, "Bad list!", 1, |rule.actions|);
    out := Listing("Which actions would you like to remove? Enter a list of space-separated integers.", Commands(rule.actions)) + printed;
    if !chosen.Value? {
      assert out + [] == out;
      return Stopped(chosen), out;
    }
    var kept := RemoveSelected(rule.actions, Elements(chosen.value));
    scene.rules := scene.rules[index := rule.(actions := kept)];
    var listed: seq<string>;
    flow, listed := AddActions(scene, index, chosen.rest);
    out := out + listed;
  }

  /** Edit.reorderActions on rule `index` of the scene. */
  method ReorderActions(scene: Scene, index: nat, input: seq<string>) returns (flow: Outcome<()>, out: seq<string>)
    requires index < |scene.rules|
    modifies scene
    ensures var step := ReorderActionsOf(old(scene.rules[index]), input);
      scene.rules == old(scene.rules)[index := step.0] && flow == step.1 && out == step.2
    ensures scene.description == old(scene.description)
  {
    var rule := scene.rules[index];
    var n := |rule.actions|;
    var order, printed := ReadIntsCounted(input, "Bad list!", 1, n, n, n);
    out := Listing("Enter the new action order as a list of space-separated integers.", Commands(rule.actions)) + printed;
    if !order.Value? {
      return Stopped(order), out;
    }
    var actions := Rearranged(rule.actions, order.value);
    scene.rules := scene.rules[index := rule.(actions := actions)];
    flow := Value((), order.rest);
  }

  /** The choice between the three edits Edit runs on rule `index`, by the option read. */
  method RunOption(scene: Scene, index: nat, option: int, input: seq<string>) returns (flow: Outcome<()>, out: seq<string>)
    requires index < |scene.rules|
    modifies scene
    ensures var step := OptionStep(old(scene.rules[index]), option, input);
      scene.rules == old(scene.rules)[index := step.0] && flow == step.1 && out == step.2
    ensures scene.description == old(scene.description)
  {
    if option == 0 {
      flow, out := EditPatterns(scene, index, input);
    } else {
      flow, out := RunOtherOption(scene, index, option, input);
    }
  }

  /** The options after the first: the actions edits, or nothing. */
  method RunOtherOption(scene: Scene, index: nat, option: int, input: seq<string>) returns (flow: Outcome<()>, out: seq<string>)
    requires index < |scene.rules| && option != 0
    modifies scene
    ensures var step := OptionStep(old(scene.rules[index]), option, input);
      scene.rules == old(scene.rules)[index := step.0] && flow == step.1 && out == step.2
    ensures scene.description == old(scene.description)
  {
    if option == 1 {
      flow, out := EditActions(scene, index, input);
    } else if option == 2 {
      flow, out := ReorderActions(scene, index, input);
    } else {
      flow, out := Value((), input), [];
    }
  }

  /** The task Edit.act runs inside handleCancel, on the current scene. */
  method EditTask(scene: Scene, input: seq<string>) returns (flow: Outcome<()>, out: seq<string>)
    modifies scene
    ensures var e := EditRun(old(scene.rules), input);
      scene.rules == e.rules && flow == e.flow && out == e.out
    ensures scene.description == old(scene.description)
  {
    var number: Outcome<int>;
    number, out := GetRuleNumber("What rule would you like to edit?", scene.rules, input);
    flow, out := EditOnRule(scene, number, out);
  }

  /** Edit's task once the rule number is read. */
  method EditOnRule(scene: Scene, number: Outcome<int>, printed: seq<string>) returns (flow: Outcome<()>, out: seq<string>)
    requires number.Value? ==> 0 <= number.value < |scene.rules|
    modifies scene
    ensures var e := EditChosen(old(scene.rules), number, printed);
      scene.rules == e.rules && flow == e.flow && out == e.out
    ensures scene.description == old(scene.description)
  {
    if !number.Value? {
      return Stopped(number), printed;
    }
    var option, asked := ReadInt(number.rest, "", "Not a valid choice", 0, 3);
    assert asked == ReadLoop(number.rest, "Not a valid choice", InRange(0, 3)).1;
    flow, out := EditOnOption(scene, number.value, option, printed + OptionQuestion() + asked);
  }

  /** Edit's task once the option is read. */
  method EditOnOption(scene: Scene, index: nat, option: Outcome<int>, asked: seq<string>) returns (flow: Outcome<()>, out: seq<string>)
    requires index < |scene.rules|
    modifies scene
    ensures var e := EditOptionRead(old(scene.rules), index, option, asked);
      scene.rules == e.rules && flow == e.flow && out == e.out
    ensures scene.description == old(scene.description)
  {
    if !option.Value? {
      return Stopped(option), asked;
    }
    ghost var rules := scene.rules;
    ghost var s := OptionStep(rules[index], option.value - 1, option.rest);
    var step: seq<string>;
    flow, step := RunOption(scene, index, option.value - 1, option.rest);
    assert scene.rules == rules[index := s.0] && flow == s.1 && step == s.2;
    EditOptionUnfolds(rules, index, option.value - 1, option.rest, asked);
    out := asked + step + (if flow.Value? then ["Edit complete."] else []);
  }

  /** Edit.act: the edit runs on the current scene, and the turn stays there. */
  method Edit(game: Game, input: seq<string>) returns (r: Outcome<Scene?>, out: seq<string>)
    requires game.Valid() && game.current != null
    modifies game.current
    ensures var e := EditRun(old(game.current.rules), input);
      game.current.rules == e.rules && (r, out) == Conclude(game.current, e.flow, e.out)
    ensures game.current.description == old(game.current.description)
  {
    var flow: Outcome<()>;
    flow, out := EditTask(game.current, input);
    r, out := Conclude(game.current, flow, out).0, Conclude(game.current, flow, out).1;
  }

  // ---------------------------------------------------- reorder, remove, describe

  const ReorderQuestion: string := "Enter the new rule order as a list of space-seperated integers."

  /**
   * Reorder.act: the rules are shown, an order of all of them read, the
   * rules rebuilt in that order, and the scene entered again.
   */
  method Reorder(game: Game, input: seq<string>) returns (r: Outcome<Scene?>, out: seq<string>)
    requires game.Valid() && game.current != null
    modifies game, game.current
    ensures game.Valid() && game.scenes == old(game.scenes) && game.current == old(game.current)
    ensures game.start == old(game.start) && game.adventureName == old(game.adventureName)
    ensures game.current.description == old(game.current.description)
    ensures var order := OrderOf(old(game.current.rules), input);
      game.current.rules == order.0
      && (r, out) == Conclude(game.current, order.1,
                              [ReorderQuestion] + ViewLines(game.current.name, old(game.current.rules)) + order.2
                              + (if order.1.Value? then ["Reorder complete.", game.current.description] else []))
  {
    var scene := game.current;
    var n := |scene.rules|;
    out := [ReorderQuestion] + ViewLines(scene.name, scene.rules);
    var order, printed := ReadIntsCounted(input, "Bad list!", 1, n, n, n);
    out := out + printed;
    if !order.Value? {
      assert out + [] == out;
      r, out := Conclude(scene, Stopped(order), out).0, Conclude(scene, Stopped(order), out).1;
      return;
    }
    var rules := Rearranged(scene.rules, order.value);
    scene.rules := rules;
    var entered: seq<string>;
    r, entered := Acts.Go(scene.name, game, order.rest);
    out := out + ["Reorder complete.", scene.description];
    ConcludeValue(scene, order.rest, out);
  }

  /** Remove.act: the rule at the number read is removed from the current scene, and the scene entered again. */
  method Remove(game: Game, input: seq<string>) returns (r: Outcome<Scene?>, out: seq<string>)
    requires game.Valid() && game.current != null
    modifies game, game.current
    ensures game.Valid() && game.scenes == old(game.scenes) && game.current == old(game.current)
    ensures game.start == old(game.start) && game.adventureName == old(game.adventureName)
    ensures game.current.description == old(game.current.description)
    ensures var number := RuleNumber(|old(game.current.rules)|, input);
      && (number.Value? ==> |game.current.rules| == |old(game.current.rules)| - 1
                            && game.current.rules == old(game.current.rules)[..number.value] + old(game.current.rules)[number.value + 1..])
      && (!number.Value? ==> game.current.rules == old(game.current.rules))
      && (r, out) == Conclude(game.current, Stopped(number),
                              RuleQuestion("What rule would you like to remove?", old(game.current.rules), input)
                              + (if number.Value? then ["Done.", game.current.description] else []))
  {
    var scene := game.current;
    var number: Outcome<int>;
    number, out := GetRuleNumber("What rule would you like to remove?", scene.rules, input);
    if !number.Value? {
      assert out + [] == out;
      r, out := Conclude(scene, Stopped(number), out).0, Conclude(scene, Stopped(number), out).1;
      return;
    }
    scene.rules := scene.rules[..number.value] + scene.rules[number.value + 1..];
    var entered: seq<string>;
    r, entered := Acts.Go(scene.name, game, number.rest);
    out := out + ["Done.", scene.description];
    ConcludeValue(scene, number.rest, out);
  }

  /** The line ChangeDescription prints first. */
  function DescriptionLine(name: string, description: string): string {
    "The current description for the scene \"" + name + "\" is: " + description
  }

  const DescriptionQuestion: string := "What would you like the new description to be?"

  /**
   * ChangeDescription.act: the description is shown, a new one read, set,
   * and the scene entered again, which prints it.
   */
  method ChangeDescription(game: Game, input: seq<string>) returns (r: Outcome<Scene?>, out: seq<string>)
    requires game.Valid() && game.current != null
    modifies game, game.current
    ensures game.Valid() && game.scenes == old(game.scenes) && game.current == old(game.current)
    ensures game.start == old(game.start) && game.adventureName == old(game.adventureName)
    ensures game.current.rules == old(game.current.rules)
    ensures var read := ReadLoop(input, "Bad description", Identity);
      && game.current.description == (if read.0.Value? then read.0.value else old(game.current.description))
      && (r, out) == Conclude(game.current, Stopped(read.0),
                              [DescriptionLine(game.current.name, old(game.current.description)), DescriptionQuestion] + read.1
                              + (if read.0.Value? then ["Description set.", read.0.value] else []))
  {
    var scene := game.current;
    out := [DescriptionLine(scene.name, scene.description)];
    var read, printed := Read(input, DescriptionQuestion, "Bad description", Identity);
    out := out + printed;
    assert out == [DescriptionLine(scene.name, scene.description), DescriptionQuestion] + ReadLoop(input, "Bad description", Identity).1 by {
      Regroup([DescriptionLine(scene.name, scene.description)], [DescriptionQuestion], ReadLoop(input, "Bad description", Identity).1);
    }
    if !read.Value? {
      assert out + [] == out;
      r, out := Conclude(scene, Stopped(read), out).0, Conclude(scene, Stopped(read), out).1;
      return;
    }
    scene.SetDescription(read.value);
    var entered: seq<string>;
    r, entered := Acts.Go(scene.name, game, read.rest);
    out := out + ["Description set.", scene.description];
    ConcludeValue(scene, read.rest, out);
  }

  /**
   * A description ChangeDescription sets is the trimmed line the user typed,
   * never the cancel word and never holding the reserved character.
   */
  lemma {:induction false} DescriptionRead(input: seq<string>)
    ensures var read := ReadLoop(input, "Bad description", Identity).0;
      read.Value? ==> && 0 < Taken(input, read.rest) <= |input|
                      && read.value == Trim(input[Taken(input, read.rest) - 1])
                      && read.value != CancelWord && ReservedSeparator !in read.value
  {
    var read := ReadLoop(input, "Bad description", Identity).0;
    ReadLoopJudged(input, "Bad description", Identity);
    if read.Value? {
      var line := input[Taken(input, read.rest) - 1];
      ReadIdentity(line, "Bad description");
    }
  }
}
