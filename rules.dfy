/**
 * Rules: a set of patterns and a list of actions. Matching (Rule.matches),
 * the stored line form (Rule.toString / Rule.parseRule / Rule.parseList) and
 * the two updates (addPattern, addAction).
 *
 * The pattern set is a sequence without duplicates whose order stands for
 * the set's iteration order.
 */
module Rules {
  import opened Wrappers
  import opened Text
  import opened Actions
  import opened Errors

  datatype Rule = Rule(patterns: seq<string>, actions: seq<Action>)

  /** The separator between the items of a stored list. */
  const SaveDelimiter: char := '`'

  predicate Distinct(xs: seq<string>) {
    forall i, j :: 0 <= i < j < |xs| ==> xs[i] != xs[j]
  }

  predicate WellFormed(r: Rule) { Distinct(r.patterns) }

  // ------------------------------------------------------------ set updates

  /** Set.add on the pattern sequence. */
  function Insert(xs: seq<string>, x: string): (r: seq<string>)
    ensures Distinct(xs) ==> Distinct(r)
    ensures forall y :: y in r <==> y in xs || y == x
    ensures x in xs ==> r == xs
    ensures x !in xs ==> r == xs + [x]
  {
    if x in xs then xs else xs + [x]
  }

  /** Set.addAll: one Insert per item, in order. */
  function InsertAll(xs: seq<string>, ys: seq<string>): (r: seq<string>)
    ensures Distinct(xs) ==> Distinct(r)
    ensures forall y :: y in r <==> y in xs || y in ys
    decreases |ys|
  {
    if ys == [] then xs else InsertAll(Insert(xs, ys[0]), ys[1..])
  }

  /** Collecting a list into a fresh set. */
  function Dedup(ys: seq<string>): seq<string> { InsertAll([], ys) }

  /** Items that are already distinct are collected as they stand. */
  lemma {:induction false} InsertAllDistinct(xs: seq<string>, ys: seq<string>)
    requires Distinct(xs + ys)
    ensures InsertAll(xs, ys) == xs + ys
    decreases |ys|
  {
    if ys != [] {
      forall i | 0 <= i < |xs| ensures xs[i] != ys[0] {
        assert (xs + ys)[i] == xs[i] && (xs + ys)[|xs|] == ys[0];
      }
      assert xs + ys == (xs + [ys[0]]) + ys[1..];
      InsertAllDistinct(xs + [ys[0]], ys[1..]);
    }
  }

  /** Collecting distinct items changes nothing. */
  lemma DedupDistinct(ys: seq<string>)
    requires Distinct(ys)
    ensures Dedup(ys) == ys
  {
    assert [] + ys == ys;
    InsertAllDistinct([], ys);
  }

  /** addPattern: the pattern joins the set; the actions are untouched. */
  function AddPattern(r: Rule, p: string): (r': Rule)
    ensures r'.actions == r.actions
    ensures WellFormed(r) ==> WellFormed(r')
    ensures forall q :: q in r'.patterns <==> q in r.patterns || q == p
  {
    r.(patterns := Insert(r.patterns, p))
  }

  /** addAction: the action goes at the end of the list; the patterns are untouched. */
  function AddAction(r: Rule, a: Action): (r': Rule)
    ensures r'.patterns == r.patterns
    ensures |r'.actions| == |r.actions| + 1 && r'.actions[..|r.actions|] == r.actions
    ensures r'.actions[|r.actions|] == a
  {
    r.(actions := r.actions + [a])
  }

  // ---------------------------------------------------------------- matching

  /** The word characters of \b, restricted to ASCII: letters, digits and the underscore. */
  predicate IsWordChar(c: char) {
    'A' <= c <= 'Z' || 'a' <= c <= 'z' || '0' <= c <= '9' || c == '_'
  }

  /** \b: a word character on exactly one side of position i. */
  predicate Boundary(s: string, i: int)
    requires 0 <= i <= |s|
  {
    (i > 0 && IsWordChar(s[i - 1])) != (i < |s| && IsWordChar(s[i]))
  }

  /** The pattern occurs at i with a word boundary on both sides. */
  predicate WordAt(p: string, s: string, i: int) {
    OccursAt(s, p, i) && Boundary(s, i) && Boundary(s, i + |p|)
  }

  /** The pattern ".*\b(p)\b.*" matches the whole of s, for a pattern p without regex operators. */
  predicate WordIn(p: string, s: string) {
    exists i :: 0 <= i <= |s| && WordAt(p, s, i)
  }

  function WordFrom(p: string, s: string, i: nat): (b: bool)
    requires i <= |s| + 1
    ensures b <==> exists j :: i <= j <= |s| && WordAt(p, s, j)
    decreases |s| + 1 - i
  {
    if i > |s| then false
    else WordAt(p, s, i) || WordFrom(p, s, i + 1)
  }

  /** One pattern of the list, upper-cased, matches the upper-cased input as a whole word. */
  function AnyPatternMatches(ps: seq<string>, input: string): (b: bool)
    ensures b <==> exists k :: 0 <= k < |ps| && WordIn(ToUpper(ps[k]), ToUpper(input))
  {
    if ps == [] then false
    else if WordFrom(ToUpper(ps[0]), ToUpper(input), 0) then true
    else
      var b := AnyPatternMatches(ps[1..], input);
      assert forall k :: 1 <= k < |ps| ==> ps[k] == ps[1..][k - 1];
      b
  }

  /** Tell whether the rule should fire on this input. */
  function Matches(r: Rule, input: string): (b: bool)
    ensures r.actions == [] ==> !b
    ensures b <==> r.actions != [] && exists k :: 0 <= k < |r.patterns| && WordIn(ToUpper(r.patterns[k]), ToUpper(input))
  {
    r.actions != [] && AnyPatternMatches(r.patterns, input)
  }

  /** Matching ignores case: only the upper-case forms of input and pattern matter. */
  lemma MatchesIgnoresCase(r: Rule, input: string, other: string)
    requires ToUpper(input) == ToUpper(other)
    ensures Matches(r, input) == Matches(r, other)
  {
  }

  /** "go" matches "a GO" as a whole word but not inside "going". */
  lemma WholeWordExample()
    ensures Matches(Rule(["go"], [Quit]), "a GO")
    ensures !Matches(Rule(["go"], [Quit]), "going")
  {
    assert ToUpper("go") == "GO";
    assert ToUpper("a GO") == "A GO";
    assert WordAt("GO", "A GO", 2);
    var down := ToUpper("going");
    assert down == "GOING";
    forall j | 0 <= j <= |down| ensures !WordAt("GO", down, j) {
      if OccursAt(down, "GO", j) {
        assert down[j..j + 2][0] == down[j] && down[j..j + 2][1] == down[j + 1];
        assert j == 0;
        assert !Boundary(down, 2);
      }
    }
  }

  // --------------------------------------------------------------- line form

  function Commands(actions: seq<Action>): (r: seq<string>)
    ensures |r| == |actions|
    ensures forall k :: 0 <= k < |actions| ==> r[k] == CommandString(actions[k])
  {
    if actions == [] then [] else [CommandString(actions[0])] + Commands(actions[1..])
  }

  /** Rule.toString: the patterns and the actions' command strings, each list in brackets. */
  function ToString(r: Rule): (s: string)
    ensures StartsWith(s, "[" + Join(r.patterns, [SaveDelimiter]) + "] -> [") && EndsWith(s, "]")
    ensures EndsWith(s, Join(Commands(r.actions), [SaveDelimiter]) + "]")
  {
    "[" + Join(r.patterns, [SaveDelimiter]) + "] -> [" + Join(Commands(r.actions), [SaveDelimiter]) + "]"
  }

  const NotEnclosed: string := "Rule condition list not enclosed by []."
  const BadActionMessage: string := "Action not valid: "
  const NoArrowMessage: string := "Rule format error. No ->"

  /**
   * parseList as the source writes it: the trimmed text is refused only when
   * it has neither the opening nor the closing bracket, and otherwise its
   * first and last characters are cut off, which fails in substring when
   * only one character is left.
   */
  function ParseListAsWritten(str: string, line: int): (r: Result<seq<string>, Error>)
    ensures r.Err? <==> (!StartsWith(Trim(str), "[") && !EndsWith(Trim(str), "]")) || |Trim(str)| == 1
  {
    var t := Trim(str);
    if !StartsWith(t, "[") && !EndsWith(t, "]") then Err(SyntaxError(line, NotEnclosed))
    else if |t| < 2 then Err(Unchecked("String index out of range: -1"))
    else Ok(JavaSplitChars(t[1..|t| - 1], {SaveDelimiter}))
  }

  /** The as-written check accepts a list that lacks its opening bracket and loses a character of its last item. */
  lemma ParseListAsWrittenLosesText()
    ensures ParseListAsWritten("[go ", 1) == Ok(["g"])
    ensures ParseList("[go ", 1) == Err(SyntaxError(1, NotEnclosed))
  {
    assert Trim("[go ") == "[go" by { TrimTrailingSpace("[go"); }
    assert "[go"[1..2] == "g";
    assert SplitChars("g", {SaveDelimiter}) == ["g"] by { SplitCharsNone("g", {SaveDelimiter}); }
  }

  /** parseList as intended: the trimmed text must be enclosed by brackets, and the items between them are split apart. */
  function ParseList(str: string, line: int): (r: Result<seq<string>, Error>)
    ensures r.Err? <==> !StartsWith(Trim(str), "[") || !EndsWith(Trim(str), "]")
    ensures r.Err? ==> r.error == SyntaxError(line, NotEnclosed)
  {
    var t := Trim(str);
    if !StartsWith(t, "[") || !EndsWith(t, "]") then Err(SyntaxError(line, NotEnclosed))
    else
      assert t[0] == t[..1][0] == '[';
      assert t[|t| - 1] == t[|t| - 1..][0] == ']';
      Ok(JavaSplitChars(t[1..|t| - 1], {SaveDelimiter}))
  }

  function NonEmpty(items: seq<string>): (r: seq<string>)
    ensures forall x :: x in r <==> x in items && x != ""
    ensures (forall k :: 0 <= k < |items| ==> items[k] != "") ==> r == items
  {
    if items == [] then []
    else (if items[0] == "" then [] else [items[0]]) + NonEmpty(items[1..])
  }

  /** An item of an action list that is rejected: not empty, and parsing to no action. */
  predicate BadItem(s: string) {
    s != "" && ParseAction(s).None?
  }

  /** The position of the first bad item, or the length when there is none. */
  function FirstBad(items: seq<string>): (k: nat)
    ensures k <= |items| && (k < |items| ==> BadItem(items[k]))
    ensures forall j :: 0 <= j < k ==> !BadItem(items[j])
  {
    if items == [] then 0
    else if BadItem(items[0]) then 0
    else
      var k := FirstBad(items[1..]);
      assert forall j :: 1 <= j < k + 1 ==> items[j] == items[1..][j - 1];
      k + 1
  }

  /**
   * The action list of a rule line: empty items are skipped and any other
   * item must parse; the error names the first item that does not.
   */
  function ParseActions(items: seq<string>, line: int): (r: Result<seq<Action>, Error>)
    ensures r.Ok? ==> r.value == ParsedActions(items)
    ensures r.Ok? ==> forall k :: 0 <= k < |r.value| ==> Parseable(r.value[k])
    ensures r.Err? <==> FirstBad(items) < |items|
    ensures r.Err? ==> r.error == SyntaxError(line, BadActionMessage + items[FirstBad(items)])
  {
    if items == [] then Ok([])
    else
      var rest := ParseActions(items[1..], line);
      if items[0] == "" then rest
      else match ParseAction(items[0])
        case None => Err(SyntaxError(line, BadActionMessage + items[0]))
        case Some(a) =>
          if rest.Err? then rest else Ok([a] + rest.value)
  }

  /** Rule.parseRule, with the intended parseList check. */
  function ParseRule(text: string, line: int): (r: Result<Rule, Error>)
    ensures |JavaSplit(text, "->")| != 2 ==> r == Err(SyntaxError(line, NoArrowMessage))
    ensures r.Err? ==> r.error.SyntaxError? && r.error.line == line
    ensures r.Ok? ==> WellFormed(r.value) && "" !in r.value.patterns
    ensures r.Ok? ==> forall k :: 0 <= k < |r.value.actions| ==> Parseable(r.value.actions[k])
  {
    var parts := JavaSplit(text, "->");
    if |parts| != 2 then Err(SyntaxError(line, NoArrowMessage))
    else
      var conditions :- ParseList(parts[0], line);
      var items :- ParseList(parts[1], line);
      var actions :- ParseActions(items, line);
      Ok(Rule(Dedup(NonEmpty(conditions)), actions))
  }

  // ------------------------------------------------------------- round trip

  predicate ArrowAt(s: string, k: int)
    requires 0 <= k < |s| - 1
  {
    s[k] == '-' && s[k + 1] == '>'
  }

  /** No "->" inside the text. */
  predicate NoArrow(s: string) {
    forall k :: 0 <= k < |s| - 1 ==> !ArrowAt(s, k)
  }

  /** An item can be stored when it is not empty and contains neither the separator nor "->". */
  predicate StorableItem(s: string) {
    s != "" && SaveDelimiter !in s && NoArrow(s)
  }

  /** A rule whose line parses back to it. */
  predicate Storable(r: Rule) {
    WellFormed(r)
    && (forall k :: 0 <= k < |r.patterns| ==> StorableItem(r.patterns[k]))
    && (forall k :: 0 <= k < |r.actions| ==> Parseable(r.actions[k]) && StorableItem(CommandString(r.actions[k])))
  }

  lemma NoArrowNoOccurrence(s: string)
    requires NoArrow(s)
    ensures forall j :: 0 <= j ==> !OccursAt(s, "->", j)
  {
    forall j | 0 <= j ensures !OccursAt(s, "->", j) {
      if j + 2 <= |s| {
        assert !ArrowAt(s, j);
        assert s[j..j + 2][0] == s[j] && s[j..j + 2][1] == s[j + 1];
      }
    }
  }

  lemma NoArrowConcat(a: string, b: string)
    requires NoArrow(a) && NoArrow(b)
    requires a == [] || b == [] || !(a[|a| - 1] == '-' && b[0] == '>')
    ensures NoArrow(a + b)
  {
    var s := a + b;
    forall k | 0 <= k < |s| - 1 ensures !ArrowAt(s, k) {
      if k < |a| - 1 {
        assert !ArrowAt(a, k);
        assert s[k] == a[k] && s[k + 1] == a[k + 1];
      } else if k >= |a| {
        assert !ArrowAt(b, k - |a|);
        assert s[k] == b[k - |a|] && s[k + 1] == b[k - |a| + 1];
      }
    }
  }

  lemma {:induction false} NoArrowJoin(items: seq<string>, c: char)
    requires c != '-' && c != '>'
    requires forall k :: 0 <= k < |items| ==> NoArrow(items[k])
    ensures NoArrow(Join(items, [c]))
    decreases |items|
  {
    if |items| > 1 {
      NoArrowJoin(items[1..], c);
      var rest := Join(items[1..], [c]);
      NoArrowConcat(items[0], [c]);
      NoArrowConcat(items[0] + [c], rest);
      assert items[0] + [c] + rest == (items[0] + [c]) + rest;
    }
  }

  /** Trimming a bracketed text with at most one space on either side leaves the bracketed text. */
  lemma TrimBracketed(t: string, before: string, after: string)
    requires |t| >= 2 && t[0] == '[' && t[|t| - 1] == ']'
    requires before == "" || before == " "
    requires after == "" || after == " "
    ensures Trim(before + t + after) == t
  {
    var s := before + t + after;
    if before == "" && after == "" {
      assert s == t;
      TrimVisible(t);
    } else if before == "" {
      assert s == t + " ";
      TrimTrailingSpace(t);
    } else if after == "" {
      assert s == " " + t;
      TrimLeadingSpace(t);
    } else {
      assert s == " " + (t + " ");
      assert LeadingTrimmed(s) == 1;
      assert s[..|s| - 1] == " " + t;
      assert VisibleEnd(s) == |s| - 1;
      assert s[1..|s| - 1] == t;
    }
  }

  /** parseList of a bracketed text splits the text between the brackets. */
  lemma ParseListBracketed(j: string, before: string, after: string, line: int)
    requires before == "" || before == " "
    requires after == "" || after == " "
    ensures ParseList(before + "[" + j + "]" + after, line) == Ok(JavaSplitChars(j, {SaveDelimiter}))
  {
    var t := "[" + j + "]";
    var s := before + "[" + j + "]" + after;
    assert s == before + t + after;
    TrimBracketed(t, before, after);
    assert t[..1] == "[" && t[|t| - 1..] == "]";
    ParseListTrimmed(s, t, line);
    assert t[1..|t| - 1] == j;
  }

  /** A line that trims to a bracketed text is read as the pieces between the brackets. */
  lemma ParseListTrimmed(s: string, t: string, line: int)
    requires Trim(s) == t && StartsWith(t, "[") && EndsWith(t, "]")
    ensures |t| >= 1 && ParseList(s, line) == Ok(JavaSplitChars(t[1..|t| - 1], {SaveDelimiter}))
  {
  }

  /** A list written between brackets is read back item for item. */
  lemma ParseListOfJoin(items: seq<string>, before: string, after: string, line: int)
    requires forall k :: 0 <= k < |items| ==> StorableItem(items[k])
    requires before == "" || before == " "
    requires after == "" || after == " "
    ensures ParseList(before + "[" + Join(items, [SaveDelimiter]) + "]" + after, line)
            == Ok(if items == [] then [""] else items)
  {
    ParseListBracketed(Join(items, [SaveDelimiter]), before, after, line);
    JavaSplitJoin(items, SaveDelimiter);
  }

  /** A rule line whose lists contain no "->" splits into exactly the two bracketed halves. */
  lemma SplitRuleLine(j: string, k: string)
    requires NoArrow(j) && NoArrow(k)
    ensures JavaSplit("[" + j + "] -> [" + k + "]", "->") == ["[" + j + "] ", " [" + k + "]"]
  {
    var left := "[" + j + "] ";
    var right := " [" + k + "]";
    assert "[" + j + "] -> [" + k + "]" == left + "->" + right;
    NoArrowConcat("[", j);
    NoArrowConcat("[" + j, "] ");
    NoArrowConcat(" [", k);
    NoArrowConcat(" [" + k, "]");
    assert left == ("[" + j) + "] ";
    assert right == (" [" + k) + "]";
    NoArrowNoOccurrence(left);
    NoArrowNoOccurrence(right);
    forall i | 0 <= i < |left| ensures !OccursAt(left + "->" + right, "->", i) {
      if i < |left| - 1 {
        assert (left + "->" + right)[i..i + 2] == left[i..i + 2];
        assert !OccursAt(left, "->", i);
      } else {
        assert (left + "->" + right)[i] == ' ';
      }
    }
    SplitAroundFirst(left, "->", right);
    SplitAroundNone(right, "->");
  }

  lemma BracketShapes(j: string, k: string)
    ensures "" + "[" + j + "]" + " " == "[" + j + "] "
    ensures " " + "[" + k + "]" + "" == " [" + k + "]"
  {
  }

  /** The pattern half of a stored rule line is read back as the pattern set. */
  lemma ConditionsRoundTrip(patterns: seq<string>, line: int)
    requires Distinct(patterns)
    requires forall k :: 0 <= k < |patterns| ==> StorableItem(patterns[k])
    ensures var conditions := if patterns == [] then [""] else patterns;
            ParseList("[" + Join(patterns, [SaveDelimiter]) + "] ", line) == Ok(conditions)
            && Dedup(NonEmpty(conditions)) == patterns
  {
    var j := Join(patterns, [SaveDelimiter]);
    BracketShapes(j, j);
    ParseListOfJoin(patterns, "", " ", line);
    ConditionsDedup(patterns);
  }

  /** The conditions read back from a stored pattern set, without blanks and duplicates, are the set. */
  lemma ConditionsDedup(patterns: seq<string>)
    requires Distinct(patterns)
    requires forall k :: 0 <= k < |patterns| ==> StorableItem(patterns[k])
    ensures Dedup(NonEmpty(if patterns == [] then [""] else patterns)) == patterns
  {
    if patterns == [] {
      assert NonEmpty([""]) == [];
    } else {
      assert forall k :: 0 <= k < |patterns| ==> patterns[k] != "";
      assert NonEmpty(patterns) == patterns;
    }
    DedupDistinct(patterns);
  }

  /** The action half of a stored rule line is read back as the action list. */
  lemma ActionsRoundTrip(actions: seq<Action>, line: int)
    requires forall k :: 0 <= k < |actions| ==> Parseable(actions[k]) && StorableItem(CommandString(actions[k]))
    ensures var cmds := Commands(actions);
            var items := if cmds == [] then [""] else cmds;
            ParseList(" [" + Join(cmds, [SaveDelimiter]) + "]", line) == Ok(items)
            && ParseActions(items, line) == Ok(actions)
  {
    var cmds := Commands(actions);
    var k := Join(cmds, [SaveDelimiter]);
    BracketShapes(k, k);
    ParseListOfJoin(cmds, " ", "", line);
    ParseActionsOfCommands(actions, line);
  }

  /** The line of a storable rule parses back to the rule. */
  lemma ParseRuleToString(r: Rule, line: int)
    requires Storable(r)
    ensures ParseRule(ToString(r), line) == Ok(r)
  {
    var cmds := Commands(r.actions);
    var j := Join(r.patterns, [SaveDelimiter]);
    var k := Join(cmds, [SaveDelimiter]);
    NoArrowJoin(r.patterns, SaveDelimiter);
    NoArrowJoin(cmds, SaveDelimiter);
    SplitRuleLine(j, k);
    ConditionsRoundTrip(r.patterns, line);
    ActionsRoundTrip(r.actions, line);
    ParseRuleOfParts(ToString(r), line, "[" + j + "] ", " [" + k + "]",
                     if r.patterns == [] then [""] else r.patterns,
                     if cmds == [] then [""] else cmds, r.actions);
  }

  lemma ParseRuleOfParts(text: string, line: int, left: string, right: string,
                         conditions: seq<string>, items: seq<string>, actions: seq<Action>)
    requires JavaSplit(text, "->") == [left, right]
    requires ParseList(left, line) == Ok(conditions)
    requires ParseList(right, line) == Ok(items)
    requires ParseActions(items, line) == Ok(actions)
    ensures ParseRule(text, line) == Ok(Rule(Dedup(NonEmpty(conditions)), actions))
  {
  }

  lemma {:induction false} ParseActionsOfCommands(actions: seq<Action>, line: int)
    requires forall k :: 0 <= k < |actions| ==> Parseable(actions[k]) && StorableItem(CommandString(actions[k]))
    ensures ParseActions(if actions == [] then [""] else Commands(actions), line) == Ok(actions)
    decreases |actions|
  {
    if actions != [] {
      var items := Commands(actions);
      ParseCommandString(actions[0]);
      if |actions| > 1 {
        ParseActionsOfCommands(actions[1..], line);
        assert items[1..] == Commands(actions[1..]);
      } else {
        assert items[1..] == [];
      }
      ParseActionsCons(items, line, actions[0], actions[1..]);
      assert [actions[0]] + actions[1..] == actions;
    }
  }

  /** A first item that parses is put before the actions of the rest. */
  lemma ParseActionsCons(items: seq<string>, line: int, a: Action, tail: seq<Action>)
    requires items != [] && items[0] != "" && ParseAction(items[0]) == Some(a)
    requires ParseActions(items[1..], line) == Ok(tail)
    ensures ParseActions(items, line) == Ok([a] + tail)
  {
  }
}
