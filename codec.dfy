/**
 * The line formats of the adventure file (Game.saveWorld / Game.parseWorld)
 * and of the state file (Game.saveState / Game.loadState), over values.
 */
module Codec {
  import opened Wrappers
  import opened Text
  import opened Errors
  import opened Actions
  import opened Rules
  import opened Scenes

  /** The content of a game's world: its adventure name, start scene name and scenes by name. */
  datatype WorldData = WorldData(name: string, start: string, scenes: map<string, SceneData>)

  datatype NamedScene = NamedScene(name: string, data: SceneData)

  /** The rules of one scene, the lines after its terminating separator, and the line counter reached. */
  datatype RulesRead = RulesRead(rules: seq<Rule>, rest: seq<string>, line: int)

  const SceneSeparator: string := "```"

  /** Every key of the map, each exactly once: the iteration order of a HashMap. */
  predicate Enumerates<V>(order: seq<string>, m: map<string, V>) {
    Distinct(order) && (forall k :: k in order ==> k in m) && (forall k :: k in m ==> k in order)
  }

  /** Game.extract: the text after a required prefix, which must not be empty. */
  function Extract(prefix: string, line: string, lineNumber: int): (r: Result<string, Error>)
    ensures r.Ok? <==> StartsWith(line, prefix) && |line| > |prefix|
    ensures r.Ok? ==> line == prefix + r.value
    ensures !StartsWith(line, prefix) ==> r == Err(SyntaxError(lineNumber, "Line does not start with: " + prefix))
    ensures StartsWith(line, prefix) && |line| == |prefix| ==> r == Err(SyntaxError(lineNumber, "No data after: " + prefix))
  {
    if !StartsWith(line, prefix) then Err(SyntaxError(lineNumber, "Line does not start with: " + prefix))
    else
      var data := line[|prefix|..];
      assert line == prefix + data;
      if |data| == 0 then Err(SyntaxError(lineNumber, "No data after: " + prefix)) else Ok(data)
  }

  lemma ExtractPrefixed(prefix: string, data: string, lineNumber: int)
    requires data != ""
    ensures Extract(prefix, prefix + data, lineNumber) == Ok(data)
  {
    assert (prefix + data)[..|prefix|] == prefix;
    assert (prefix + data)[|prefix|..] == data;
  }

  // ------------------------------------------------------------------ writing

  function SceneBlocks(m: map<string, SceneData>, order: seq<string>): seq<string>
    requires forall k :: k in order ==> k in m
  {
    if order == [] then []
    else SceneLines(order[0], m[order[0]]) + [SceneSeparator] + SceneBlocks(m, order[1..])
  }

  /** Game.saveWorld: the name line, the start line, then every scene followed by a separator line. */
  function SaveWorldLines(w: WorldData, order: seq<string>): seq<string>
    requires Enumerates(order, w.scenes)
  {
    ["Name: " + w.name, "Start: " + w.start] + SceneBlocks(w.scenes, order)
  }

  /** Game.saveState: the current scene's name and the score. */
  function SaveStateLines(current: string, score: int): seq<string> {
    ["Current: " + current, "Score: " + IntToString(score)]
  }

  // ------------------------------------------------------------------ reading

  /** The catch-all of parseWorld turns any failure inside a scene into a syntax error carrying its message. */
  function Wrap(line: int, e: Error): Error {
    SyntaxError(line, Message(e))
  }

  /** Scanner.nextLine's message when the input has no line left. */
  const NoLineFound: string := "No line found"

  /** The rule lines of a scene up to and including its separator line. */
  function ParseRules(rest: seq<string>, line: int): (r: Result<RulesRead, Error>)
    ensures r.Ok? ==> |r.value.rest| < |rest| && r.value.line == line + |r.value.rules|
    decreases |rest|
  {
    if rest == [] then Err(SyntaxError(line, NoLineFound))
    else if rest[0] == SceneSeparator then Ok(RulesRead([], rest[1..], line))
    else
      var next := line + 1;
      match ParseRule(rest[0], next)
      case Err(e) => Err(Wrap(next, e))
      case Ok(rule) =>
        match ParseRules(rest[1..], next)
        case Err(e) => Err(e)
        case Ok(more) => Ok(RulesRead([rule] + more.rules, more.rest, more.line))
  }

  /** The scene blocks of an adventure file, while lines remain. */
  function ParseScenes(rest: seq<string>, line: int): (r: Result<seq<NamedScene>, Error>)
    decreases |rest|
  {
    if rest == [] then Ok([])
    else
      var nameLine := line + 1;
      match Extract("Name: ", rest[0], nameLine)
      case Err(e) => Err(Wrap(nameLine, e))
      case Ok(name) =>
        var descriptionLine := nameLine + 1;
        if |rest| < 2 then Err(SyntaxError(descriptionLine, NoLineFound))
        else
          match Extract("Description: ", rest[1], descriptionLine)
          case Err(e) => Err(Wrap(descriptionLine, e))
          case Ok(description) =>
            match ParseRules(rest[2..], descriptionLine)
            case Err(e) => Err(e)
            case Ok(read) =>
              match ParseScenes(read.rest, read.line)
              case Err(e) => Err(e)
              case Ok(more) => Ok([NamedScene(name, SceneData(description, read.rules))] + more)
  }

  /** Collecting the parsed scenes into a map; a name seen twice is an error. */
  function CollectScenes(acc: map<string, SceneData>, scenes: seq<NamedScene>): (r: Result<map<string, SceneData>, Error>)
    ensures r.Ok? ==> acc.Keys <= r.value.Keys
    ensures r.Ok? ==> forall k :: 0 <= k < |scenes| ==> scenes[k].name in r.value
    ensures r.Err? ==> exists k :: 0 <= k < |scenes| && r.error == SyntaxError(-1, "Duplicate scene: " + scenes[k].name)
    decreases |scenes|
  {
    if scenes == [] then Ok(acc)
    else if scenes[0].name in acc then Err(SyntaxError(-1, "Duplicate scene: " + scenes[0].name))
    else
      var r := CollectScenes(acc[scenes[0].name := scenes[0].data], scenes[1..]);
      assert forall k :: 1 <= k < |scenes| ==> scenes[k] == scenes[1..][k - 1];
      r
  }

  const ExpectedLine: string := "Expected line, but none found."

  /** Game.parseWorld, as a function of the file's lines. */
  function ParseWorldSpec(lines: seq<string>): (r: Result<WorldData, Error>)
    ensures r.Ok? ==> r.value.start in r.value.scenes
    ensures |lines| == 0 ==> r == Err(SyntaxError(1, ExpectedLine))
    ensures |lines| == 1 && Extract("Name: ", lines[0], 1).Ok? ==> r == Err(SyntaxError(2, ExpectedLine))
  {
    if |lines| == 0 then Err(SyntaxError(1, ExpectedLine))
    else
      match Extract("Name: ", lines[0], 1)
      case Err(e) => Err(e)
      case Ok(name) =>
        if |lines| == 1 then Err(SyntaxError(2, ExpectedLine))
        else
          match Extract("Start: ", lines[1], 2)
          case Err(e) => Err(e)
          case Ok(start) =>
            match ParseScenes(lines[2..], 2)
            case Err(e) => Err(e)
            case Ok(scenes) =>
              match CollectScenes(map[], scenes)
              case Err(e) => Err(e)
              case Ok(m) =>
                if start !in m then Err(SyntaxError(1, "The start scene is not defined!"))
                else Ok(WorldData(name, start, m))
  }

  /** What Game.loadState does with the lines of a state file. */
  datatype StateEffect =
    | SetState(current: string, score: int)
    | KeepState
    | StateError(error: Error)

  /**
   * Game.loadState: a missing line or a score that is not an integer changes
   * nothing; a malformed line is a syntax error; an unknown scene is NoSuchScene.
   */
  function LoadStateSpec(lines: seq<string>, scenes: set<string>): (r: StateEffect)
    ensures r.SetState? ==> r.current in scenes
    ensures r.SetState? ==> |lines| >= 2 && lines[0] == "Current: " + r.current
    ensures r.SetState? ==> exists text :: lines[1] == "Score: " + text && ParseInt(text) == Some(r.score)
    ensures |lines| < 2 ==> !r.SetState?
  {
    if |lines| == 0 then KeepState
    else
      match Extract("Current: ", lines[0], 1)
      case Err(e) => StateError(e)
      case Ok(current) =>
        if |lines| == 1 then KeepState
        else
          match Extract("Score: ", lines[1], 2)
          case Err(e) => StateError(e)
          case Ok(text) =>
            match ParseInt(text)
            case None => KeepState
            case Some(score) =>
              if current !in scenes then StateError(NoSuchScene(current))
              else SetState(current, score)
  }

  /** The state file of a scene that is in the world restores that scene and the score. */
  lemma LoadSaveState(current: string, score: int, scenes: set<string>)
    requires current != "" && current in scenes && IsInt32(score)
    ensures LoadStateSpec(SaveStateLines(current, score), scenes) == SetState(current, score)
  {
    ExtractPrefixed("Current: ", current, 1);
    ParseIntToString(score);
    assert IntToString(score) != "";
    ExtractPrefixed("Score: ", IntToString(score), 2);
  }

  /** A state file naming a scene that is not in the world is refused with NoSuchScene. */
  lemma LoadStateUnknownScene(current: string, score: int, scenes: set<string>)
    requires current != "" && current !in scenes && IsInt32(score)
    ensures LoadStateSpec(SaveStateLines(current, score), scenes) == StateError(NoSuchScene(current))
  {
    ExtractPrefixed("Current: ", current, 1);
    ParseIntToString(score);
    ExtractPrefixed("Score: ", IntToString(score), 2);
  }

  // --------------------------------------------------------------- round trip

  /** A world whose adventure file parses back to it. */
  predicate StorableWorld(w: WorldData) {
    w.name != "" && w.start != "" && w.start in w.scenes
    && forall k :: k in w.scenes ==>
         k != "" && w.scenes[k].description != ""
         && forall j :: 0 <= j < |w.scenes[k].rules| ==> Storable(w.scenes[k].rules[j])
  }

  lemma RuleTextNotSeparator(r: Rule)
    ensures ToString(r) != SceneSeparator
  {
    assert ToString(r)[0] == '[';
  }

  lemma ParseRulesStep(lines: seq<string>, tail: seq<string>, line: int, rule: Rule, more: RulesRead)
    requires |lines| > 0 && lines[0] != SceneSeparator && lines[1..] == tail
    requires ParseRule(lines[0], line + 1) == Ok(rule)
    requires ParseRules(tail, line + 1) == Ok(more)
    ensures ParseRules(lines, line) == Ok(RulesRead([rule] + more.rules, more.rest, more.line))
  {
  }

  /** `lines` holds the lines of these rules, then a separator, then `after`. */
  predicate RuleBlock(rules: seq<Rule>, lines: seq<string>, after: seq<string>)
    decreases |rules|
  {
    if rules == [] then lines == [SceneSeparator] + after
    else |lines| > 0 && lines[0] == ToString(rules[0]) && RuleBlock(rules[1..], lines[1..], after)
  }

  /** `lines` holds, from line number `line + 1` on, one line parsing to each rule, then a separator, then `after`. */
  predicate ParsedBlock(rules: seq<Rule>, lines: seq<string>, after: seq<string>, line: int)
    decreases |rules|
  {
    if rules == [] then lines == [SceneSeparator] + after
    else
      |lines| > 0 && lines[0] != SceneSeparator && ParseRule(lines[0], line + 1) == Ok(rules[0])
      && ParsedBlock(rules[1..], lines[1..], after, line + 1)
  }

  lemma {:induction false} RuleLinesBlock(rules: seq<Rule>, after: seq<string>)
    ensures RuleBlock(rules, RuleLines(rules) + [SceneSeparator] + after, after)
    decreases |rules|
  {
    if rules != [] {
      RuleLinesBlock(rules[1..], after);
      assert RuleLines(rules) == [ToString(rules[0])] + RuleLines(rules[1..]);
      BlockShape(ToString(rules[0]), RuleLines(rules[1..]), after);
    }
  }

  lemma BlockShape(x: string, xs: seq<string>, after: seq<string>)
    ensures (([x] + xs) + [SceneSeparator] + after)[1..] == xs + [SceneSeparator] + after
  {
    assert ([x] + xs) + [SceneSeparator] + after == [x] + (xs + [SceneSeparator] + after);
  }

  lemma StoredLine(r: Rule, text: string, line: int)
    requires Storable(r) && text == ToString(r)
    ensures text != SceneSeparator && ParseRule(text, line) == Ok(r)
  {
    RuleTextNotSeparator(r);
    ParseRuleToString(r, line);
  }

  lemma {:induction false} StoredBlockParses(rules: seq<Rule>, lines: seq<string>, after: seq<string>, line: int)
    requires forall j :: 0 <= j < |rules| ==> Storable(rules[j])
    requires RuleBlock(rules, lines, after)
    ensures ParsedBlock(rules, lines, after, line)
    decreases |rules|
  {
    if rules != [] {
      StoredLine(rules[0], lines[0], line + 1);
      StoredBlockParses(rules[1..], lines[1..], after, line + 1);
    }
  }

  lemma SeparatorLine(lines: seq<string>, after: seq<string>, line: int)
    requires lines == [SceneSeparator] + after
    ensures ParseRules(lines, line) == Ok(RulesRead([], after, line))
  {
    assert lines[1..] == after;
  }

  lemma {:induction false} ParseParsedBlock(rules: seq<Rule>, lines: seq<string>, after: seq<string>, line: int)
    requires ParsedBlock(rules, lines, after, line)
    ensures ParseRules(lines, line) == Ok(RulesRead(rules, after, line + |rules|))
    decreases |rules|
  {
    if rules == [] {
      SeparatorLine(lines, after, line);
    } else {
      ParsedBlockHead(rules, lines, after, line);
      ParseParsedBlock(rules[1..], lines[1..], after, line + 1);
      var more := RulesRead(rules[1..], after, line + 1 + |rules[1..]|);
      ParseRulesStep(lines, lines[1..], line, rules[0], more);
      RulesReadCons(rules, after, line);
    }
  }

  /** Reading the first rule in front of the rules read after it reads them all. */
  lemma RulesReadCons(rules: seq<Rule>, after: seq<string>, line: int)
    requires rules != []
    ensures var more := RulesRead(rules[1..], after, line + 1 + |rules[1..]|);
      RulesRead([rules[0]] + more.rules, more.rest, more.line) == RulesRead(rules, after, line + |rules|)
  {
    assert [rules[0]] + rules[1..] == rules;
  }

  /** The first line of a parsed block and the block after it. */
  lemma ParsedBlockHead(rules: seq<Rule>, lines: seq<string>, after: seq<string>, line: int)
    requires rules != [] && ParsedBlock(rules, lines, after, line)
    ensures |lines| > 0 && lines[0] != SceneSeparator && ParseRule(lines[0], line + 1) == Ok(rules[0])
    ensures ParsedBlock(rules[1..], lines[1..], after, line + 1)
  {
  }

  /** The rule lines of a scene, then its separator, parse back to its rules. */
  lemma ParseRuleLines(rules: seq<Rule>, after: seq<string>, line: int)
    requires forall j :: 0 <= j < |rules| ==> Storable(rules[j])
    ensures ParseRules(RuleLines(rules) + [SceneSeparator] + after, line)
            == Ok(RulesRead(rules, after, line + |rules|))
  {
    var lines := RuleLines(rules) + [SceneSeparator] + after;
    RuleLinesBlock(rules, after);
    StoredBlockParses(rules, lines, after, line);
    ParseParsedBlock(rules, lines, after, line);
  }

  function NamedScenes(m: map<string, SceneData>, order: seq<string>): (r: seq<NamedScene>)
    requires forall k :: k in order ==> k in m
    ensures |r| == |order|
    ensures forall i :: 0 <= i < |order| ==> r[i] == NamedScene(order[i], m[order[i]])
  {
    if order == [] then [] else [NamedScene(order[0], m[order[0]])] + NamedScenes(m, order[1..])
  }

  /** The shape of one scene block followed by the blocks after it. */
  lemma SceneBlockShape(k: string, d: SceneData, after: seq<string>)
    ensures var lines := SceneLines(k, d) + [SceneSeparator] + after;
      |lines| >= 2 && lines[0] == "Name: " + k && lines[1] == "Description: " + d.description
      && lines[2..] == RuleLines(d.rules) + [SceneSeparator] + after
  {
    var lines := SceneLines(k, d) + [SceneSeparator] + after;
    assert lines == ["Name: " + k, "Description: " + d.description] + (RuleLines(d.rules) + [SceneSeparator] + after);
  }

  /** `lines` reads, from line number `line + 1` on, as exactly these scenes. */
  predicate ParsedScenes(scenes: seq<NamedScene>, lines: seq<string>, line: int)
    decreases |scenes|
  {
    if scenes == [] then lines == []
    else
      |lines| >= 2
      && Extract("Name: ", lines[0], line + 1) == Ok(scenes[0].name)
      && Extract("Description: ", lines[1], line + 2) == Ok(scenes[0].data.description)
      && var read := ParseRules(lines[2..], line + 2);
         read.Ok? && read.value.rules == scenes[0].data.rules
         && ParsedScenes(scenes[1..], read.value.rest, read.value.line)
  }

  lemma {:induction false} ParseParsedScenes(scenes: seq<NamedScene>, lines: seq<string>, line: int)
    requires ParsedScenes(scenes, lines, line)
    ensures ParseScenes(lines, line) == Ok(scenes)
    decreases |scenes|
  {
    if scenes != [] {
      ParseScenesHead(scenes, lines, line);
      var read := ParseRules(lines[2..], line + 2).value;
      ParseParsedScenes(scenes[1..], read.rest, read.line);
    }
  }

  /** The first scene block of a parsed sequence reads in full, and the scenes after it follow. */
  lemma ParseScenesHead(scenes: seq<NamedScene>, lines: seq<string>, line: int)
    requires scenes != [] && ParsedScenes(scenes, lines, line)
    ensures |lines| >= 2 && ParseRules(lines[2..], line + 2).Ok?
    ensures var read := ParseRules(lines[2..], line + 2).value;
      ParsedScenes(scenes[1..], read.rest, read.line)
      && (ParseScenes(read.rest, read.line) == Ok(scenes[1..]) ==> ParseScenes(lines, line) == Ok(scenes))
  {
    var read := ParseRules(lines[2..], line + 2).value;
    assert scenes == [NamedScene(scenes[0].name, SceneData(scenes[0].data.description, read.rules))] + scenes[1..];
  }

  lemma {:induction false} StoredSceneBlocks(w: WorldData, order: seq<string>, line: int)
    requires StorableWorld(w)
    requires forall k :: k in order ==> k in w.scenes
    ensures ParsedScenes(NamedScenes(w.scenes, order), SceneBlocks(w.scenes, order), line)
    decreases |order|
  {
    if order != [] {
      var k := order[0];
      var d := w.scenes[k];
      var after := SceneBlocks(w.scenes, order[1..]);
      var lines := SceneBlocks(w.scenes, order);
      var scenes := NamedScenes(w.scenes, order);
      assert lines == SceneLines(k, d) + [SceneSeparator] + after;
      SceneBlockShape(k, d, after);
      ExtractPrefixed("Name: ", k, line + 1);
      ExtractPrefixed("Description: ", d.description, line + 2);
      ParseRuleLines(d.rules, after, line + 2);
      assert forall j :: j in order[1..] ==> j in order;
      StoredSceneBlocks(w, order[1..], line + 2 + |d.rules|);
      assert scenes[0] == NamedScene(k, d);
      assert scenes[1..] == NamedScenes(w.scenes, order[1..]);
    }
  }

  lemma ParseSceneBlocks(w: WorldData, order: seq<string>, line: int)
    requires StorableWorld(w)
    requires forall k :: k in order ==> k in w.scenes
    ensures ParseScenes(SceneBlocks(w.scenes, order), line) == Ok(NamedScenes(w.scenes, order))
  {
    StoredSceneBlocks(w, order, line);
    ParseParsedScenes(NamedScenes(w.scenes, order), SceneBlocks(w.scenes, order), line);
  }

  lemma TailOfDistinct(order: seq<string>)
    requires Distinct(order) && order != []
    ensures Distinct(order[1..])
    ensures forall k :: k in order[1..] ==> k in order && k != order[0]
  {
    var rest := order[1..];
    forall k | k in rest ensures k in order && k != order[0] {
      var i :| 0 <= i < |rest| && rest[i] == k;
      assert order[i + 1] == k;
    }
    forall i, j | 0 <= i < j < |rest| ensures rest[i] != rest[j] {
      assert rest[i] == order[i + 1] && rest[j] == order[j + 1];
    }
  }

  lemma RestrictCons(acc: map<string, SceneData>, m: map<string, SceneData>, order: seq<string>)
    requires order != [] && forall k :: k in order ==> k in m
    ensures acc[order[0] := m[order[0]]] + (map k | k in order[1..] :: m[k]) == acc + map k | k in order :: m[k]
  {
    var x := order[0];
    var left := acc[x := m[x]] + (map k | k in order[1..] :: m[k]);
    var right := acc + map k | k in order :: m[k];
    forall k | k in order ensures k == x || k in order[1..] {
      if k != x {
        var i :| 0 <= i < |order| && order[i] == k;
        assert order[1..][i - 1] == k;
      }
    }
    assert left.Keys == right.Keys;
    forall k | k in left ensures left[k] == right[k] {
    }
  }

  lemma {:induction false} CollectNamed(acc: map<string, SceneData>, m: map<string, SceneData>, order: seq<string>)
    requires Distinct(order)
    requires forall k :: k in order ==> k in m && k !in acc
    ensures CollectScenes(acc, NamedScenes(m, order)) == Ok(acc + map k | k in order :: m[k])
    decreases |order|
  {
    if order == [] {
      assert (map k | k in order :: m[k]) == map[];
      assert acc + map[] == acc;
    } else {
      var x := order[0];
      TailOfDistinct(order);
      var ns := NamedScenes(m, order);
      assert ns[0] == NamedScene(x, m[x]);
      assert ns[1..] == NamedScenes(m, order[1..]);
      CollectNamed(acc[x := m[x]], m, order[1..]);
      RestrictCons(acc, m, order);
    }
  }

  /** The map collected from an enumeration of a map is that map. */
  lemma CollectEnumerated(m: map<string, SceneData>, order: seq<string>)
    requires Enumerates(order, m)
    ensures CollectScenes(map[], NamedScenes(m, order)) == Ok(m)
  {
    var empty: map<string, SceneData> := map[];
    CollectNamed(empty, m, order);
    MapOverKeys(empty, m, order);
  }

  /** A map rebuilt over a list of exactly its keys, added to the empty map, is the map itself. */
  lemma MapOverKeys<K, V>(empty: map<K, V>, m: map<K, V>, order: seq<K>)
    requires empty == map[] && (forall k :: k in order ==> k in m) && (forall k :: k in m ==> k in order)
    ensures empty + (map k | k in order :: m[k]) == m
  {
    var named := map k | k in order :: m[k];
    assert named.Keys == m.Keys;
    assert named == m;
    assert empty + named == named;
  }

  /**
   * The adventure file of a world parses back to that world, whatever order
   * the scenes were written in.
   */
  lemma ParseSaveWorld(w: WorldData, order: seq<string>)
    requires StorableWorld(w)
    requires Enumerates(order, w.scenes)
    ensures ParseWorldSpec(SaveWorldLines(w, order)) == Ok(w)
  {
    var lines := SaveWorldLines(w, order);
    ExtractPrefixed("Name: ", w.name, 1);
    ExtractPrefixed("Start: ", w.start, 2);
    assert lines[2..] == SceneBlocks(w.scenes, order);
    ParseSceneBlocks(w, order, 2);
    CollectEnumerated(w.scenes, order);
  }

  // ------------------------------------------------------ the reading loops

  function PrependRules(rules: seq<Rule>, r: Result<RulesRead, Error>): Result<RulesRead, Error> {
    match r
    case Err(e) => Err(e)
    case Ok(read) => Ok(RulesRead(rules + read.rules, read.rest, read.line))
  }

  function PrependScenes(scenes: seq<NamedScene>, r: Result<seq<NamedScene>, Error>): Result<seq<NamedScene>, Error> {
    match r
    case Err(e) => Err(e)
    case Ok(more) => Ok(scenes + more)
  }

  lemma PrependNoRules(r: Result<RulesRead, Error>)
    ensures PrependRules([], r) == r
  {
    if r.Ok? {
      assert [] + r.value.rules == r.value.rules;
    }
  }

  lemma PrependNoScenes(r: Result<seq<NamedScene>, Error>)
    ensures PrependScenes([], r) == r
  {
    if r.Ok? {
      assert [] + r.value == r.value;
    }
  }

  lemma RulesAtSeparator(rest: seq<string>, line: int, rules: seq<Rule>)
    requires rest != [] && rest[0] == SceneSeparator
    ensures PrependRules(rules, ParseRules(rest, line)) == Ok(RulesRead(rules, rest[1..], line))
  {
    assert rules + [] == rules;
  }

  lemma RulesAtError(rest: seq<string>, line: int, rules: seq<Rule>, e: Error)
    requires rest != [] && rest[0] != SceneSeparator && ParseRule(rest[0], line + 1) == Err(e)
    ensures PrependRules(rules, ParseRules(rest, line)) == Err(Wrap(line + 1, e))
  {
  }

  lemma ParseRulesStepErr(lines: seq<string>, tail: seq<string>, line: int, rule: Rule, e: Error)
    requires |lines| > 0 && lines[0] != SceneSeparator && lines[1..] == tail
    requires ParseRule(lines[0], line + 1) == Ok(rule)
    requires ParseRules(tail, line + 1) == Err(e)
    ensures ParseRules(lines, line) == Err(e)
  {
  }

  lemma PrependRuleShape(rules: seq<Rule>, rule: Rule, more: RulesRead)
    ensures PrependRules(rules, Ok(RulesRead([rule] + more.rules, more.rest, more.line)))
            == PrependRules(rules + [rule], Ok(more))
  {
    assert rules + ([rule] + more.rules) == rules + [rule] + more.rules;
  }

  lemma RulesOfRule(rest: seq<string>, line: int, rules: seq<Rule>, rule: Rule)
    requires rest != [] && rest[0] != SceneSeparator && ParseRule(rest[0], line + 1) == Ok(rule)
    ensures PrependRules(rules, ParseRules(rest, line)) == PrependRules(rules + [rule], ParseRules(rest[1..], line + 1))
  {
    var t := ParseRules(rest[1..], line + 1);
    if t.Err? {
      ParseRulesStepErr(rest, rest[1..], line, rule, t.error);
    } else {
      ParseRulesStep(rest, rest[1..], line, rule, t.value);
      PrependRuleShape(rules, rule, t.value);
    }
  }

  /**
   * Game.parseWorld's loops: one line at a time, each scene's rules up to its
   * separator, then the scenes into a map.
   */
  method ParseWorld(lines: seq<string>) returns (r: Result<WorldData, Error>)
    ensures r == ParseWorldSpec(lines)
  {
    if |lines| == 0 {
      return Err(SyntaxError(1, ExpectedLine));
    }
    var name := Extract("Name: ", lines[0], 1);
    if name.Err? {
      return Err(name.error);
    }
    if |lines| == 1 {
      return Err(SyntaxError(2, ExpectedLine));
    }
    var start := Extract("Start: ", lines[1], 2);
    if start.Err? {
      return Err(start.error);
    }
    var scenes: seq<NamedScene> := [];
    var pos := 2;
    var line := 2;
    PrependNoScenes(ParseScenes(lines[2..], 2));
    while pos < |lines|
      invariant 2 <= pos <= |lines|
      invariant ParseScenes(lines[2..], 2) == PrependScenes(scenes, ParseScenes(lines[pos..], line))
      decreases |lines| - pos
    {
      var step := ReadScene(lines, pos, line);
      match step
      case Err(e) =>
        assert ParseScenes(lines[pos..], line) == Err(e);
        return Err(e);
      case Ok(sceneRead) =>
        var (scene, next, nextLine) := sceneRead;
        assert ParseScenes(lines[pos..], line) == PrependScenes([scene], ParseScenes(lines[next..], nextLine));
        assert scenes + ([scene] + []) == scenes + [scene];
        PrependTwice(scenes, [scene], ParseScenes(lines[next..], nextLine));
        scenes := scenes + [scene];
        pos, line := next, nextLine;
    }
    assert lines[pos..] == [];
    assert scenes + [] == scenes;
    var collected := Collect(scenes);
    if collected.Err? {
      return Err(collected.error);
    }
    var m := collected.value;
    if start.value !in m {
      return Err(SyntaxError(1, "The start scene is not defined!"));
    }
    return Ok(WorldData(name.value, start.value, m));
  }

  /** The loop that files the parsed scenes under their names, refusing a name seen before. */
  method Collect(scenes: seq<NamedScene>) returns (r: Result<map<string, SceneData>, Error>)
    ensures r == CollectScenes(map[], scenes)
  {
    var m: map<string, SceneData> := map[];
    var i := 0;
    while i < |scenes|
      invariant 0 <= i <= |scenes|
      invariant CollectScenes(map[], scenes) == CollectScenes(m, scenes[i..])
    {
      if scenes[i].name in m {
        return Err(SyntaxError(-1, "Duplicate scene: " + scenes[i].name));
      }
      assert scenes[i..][1..] == scenes[i + 1..];
      m := m[scenes[i].name := scenes[i].data];
      i := i + 1;
    }
    return Ok(m);
  }

  lemma PrependTwice(a: seq<NamedScene>, b: seq<NamedScene>, r: Result<seq<NamedScene>, Error>)
    ensures PrependScenes(a, PrependScenes(b, r)) == PrependScenes(a + b, r)
  {
    match r
    case Err(e) =>
    case Ok(more) => assert a + (b + more) == a + b + more;
  }

  /** One scene of the adventure file, read from position `pos` with the line counter at `line`. */
  method ReadScene(lines: seq<string>, pos: int, line: int) returns (r: Result<(NamedScene, int, int), Error>)
    requires 0 <= pos < |lines|
    ensures r.Err? ==> ParseScenes(lines[pos..], line) == Err(r.error)
    ensures r.Ok? ==> (pos < r.value.1 <= |lines|
      && ParseScenes(lines[pos..], line) == PrependScenes([r.value.0], ParseScenes(lines[r.value.1..], r.value.2)))
  {
    var rest := lines[pos..];
    var nameLine := line + 1;
    var name := Extract("Name: ", lines[pos], nameLine);
    if name.Err? {
      return Err(Wrap(nameLine, name.error));
    }
    var descriptionLine := nameLine + 1;
    if pos + 1 == |lines| {
      return Err(SyntaxError(descriptionLine, NoLineFound));
    }
    assert rest[1] == lines[pos + 1];
    var description := Extract("Description: ", lines[pos + 1], descriptionLine);
    if description.Err? {
      return Err(Wrap(descriptionLine, description.error));
    }
    assert rest[2..] == lines[pos + 2..];
    var read := ReadRules(lines, pos + 2, descriptionLine);
    match read
    case Err(e) =>
      return Err(e);
    case Ok(rr) =>
      var (rules, next, nextLine) := rr;
      var scene := NamedScene(name.value, SceneData(description.value, rules));
      return Ok((scene, next, nextLine));
  }

  /** The rule lines of a scene, read from position `pos` up to and including the separator. */
  method ReadRules(lines: seq<string>, pos: int, line: int) returns (r: Result<(seq<Rule>, int, int), Error>)
    requires 0 <= pos <= |lines|
    ensures r.Err? ==> ParseRules(lines[pos..], line) == Err(r.error)
    ensures r.Ok? ==> (pos < r.value.1 <= |lines|
      && ParseRules(lines[pos..], line) == Ok(RulesRead(r.value.0, lines[r.value.1..], r.value.2)))
  {
    var rules: seq<Rule> := [];
    var p := pos;
    var l := line;
    PrependNoRules(ParseRules(lines[pos..], line));
    while true
      invariant pos <= p <= |lines|
      invariant ParseRules(lines[pos..], line) == PrependRules(rules, ParseRules(lines[p..], l))
      decreases |lines| - p
    {
      if p == |lines| {
        assert lines[p..] == [];
        return Err(SyntaxError(l, NoLineFound));
      }
      var text := lines[p];
      if text == SceneSeparator {
        RulesAtSeparator(lines[p..], l, rules);
        assert lines[p..][1..] == lines[p + 1..];
        return Ok((rules, p + 1, l));
      }
      var rule := ParseRule(text, l + 1);
      if rule.Err? {
        RulesAtError(lines[p..], l, rules, rule.error);
        return Err(Wrap(l + 1, rule.error));
      }
      RulesOfRule(lines[p..], l, rules, rule.value);
      assert lines[p..][1..] == lines[p + 1..];
      l := l + 1;
      rules := rules + [rule.value];
      p := p + 1;
    }
  }
}
