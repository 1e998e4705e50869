# Grow engine in Dafny

Grow is a text-adventure engine in which the player also writes the story.
An adventure is a set of named scenes. Each scene has a description and an
ordered list of rules. A rule pairs a set of word patterns with a list of
actions. Typing a line runs the actions of the first rule whose patterns hit
it. Actions include:
- printing text, moving to a scene (created on first visit), changing or
  showing the score, quitting and restarting;
- a family of in-game editors that add, remove, reorder and rewrite the
  rules of the current scene.

Lines that start with `:` first go to a built-in command table (`:quit`,
`:extend`, `:edit`, ...). A world is saved as two line-oriented text files:
- the adventure: a name, a start scene, and blocks of scene lines;
- the state: the current scene and the score.

This project models that engine:
- the action language and its one-character-prefix codec;
- rule matching and the rule line format;
- scenes, the score and the world (`Game`), with the adventure and state
  codecs;
- the turn executor;
- every editor, old and new;
- the console input helpers;
- the file-name logic of the save manager;
- the argument handling of the desktop launcher.

Modules follow the Java packages and classes:

| module | file | models |
|---|---|---|
| `Wrappers`, `Errors`, `Text` | wrappers.dfy, errors.dfy, text.dfy | Option/Result; the exception classes as one error datatype with their messages; the Java `String` operations used (`trim`, `split`, `startsWith`, `Integer.parseInt`, `Integer.toString`) |
| `Actions` | actions.dfy | `Action` and its variants, `parseAction`, `tryParse`, `commandString` |
| `Rules` | rules.dfy | `Rule`: `matches`, `toString`, `parseRule`, `parseList`, `addPattern`, `addAction` |
| `Scores`, `Scenes` | scores.dfy, scenes.dfy | `Score` and `Scene` as classes |
| `Codec`, `Games` | codec.dfy, games.dfy | the adventure and state file formats; `Game` as a class |
| `Util` | input.dfy | `read`, `readList`, `readInt`, `readInts`, `intListMinMax`, `handleCancel`, `getRuleNumber`, `prettyRule` |
| `Acts` | acts.dfy | `act` of Go, ScoreChange, Restart, View, Quit, ScoreDisplay and Extend |
| `Editors` | editors.dfy | `Edit`, `Reorder`, `Remove`, `ChangeDescription` |
| `Legacy` | legacy.dfy | `EditOrder`, `EditActionOrder`, `EditAction`, `EditPattern`, `RemoveRule` |
| `Traces` | traces.dfy | the record of a turn's actions and of the turns of a game, in whose terms `doTurn` and `play` are specified |
| `Turns` | turns.dfy | `GrowGame`: the command table, `init`, `doTurn`, `play` |
| `Names` | names.dfy | `SaveManager`: `clean`'s file classification, `importAction`'s `_vN` names, `newGame`'s name choice, `randomAlphNum`, the sound-file checks |
| `Args` | args.dfy | `gui/Grow.java`: `processArgs`, `testSize`, the flag checks of `main` |

## How the model is set up

- **Scenes, the score, the world and the game runner are classes.** Their
  methods update fields as the Java does:
  - `Scene`: `description` and `rules` change;
  - `Score`: `value` changes;
  - `Game`: the `scenes` map, `start`, `current` (null means game over),
    `score` and `adventureName` change;
  - `GrowGame`: `world` changes.
- **Rules and actions are values.** `Rule.addPattern` and `addAction` are
  functions that return the updated rule. An editor writes the result back
  into the scene's `rules` sequence.
- **A pattern set is a duplicate-free `seq<string>`.** Its order stands for
  whatever order the `HashSet` iterates in.
- **Console input is a `seq<string>` of lines.** Every reading operation
  returns the lines it did not consume and the lines it printed. An
  operation that runs out of input ends in `Exhausted`; this is the
  model's form of `NoSuchElementException` from `Scanner.nextLine`.
  `:cancel` gives `Canceled(rest)`, the model's form of `CanceledException`.
- **`act(current, world, input, output)` becomes a method.** It takes the
  `Game` and the input lines, and returns `Outcome<Scene?>` together with
  the printed lines.
- **The source mixes two versions of the `Action` API:** four-parameter and
  five-parameter `act`, and two `Util.getRuleNumber` overloads. The model
  gives every action the one signature above. The older editors use the
  `getRuleNumber` that exists (`Util.java:307-312`).
- **Randomness is passed in:**
  - the unknown-input reply of `doTurn` is a parameter;
  - `play` takes a function from turn number to reply;
  - `newGame` takes the integers `Math.random` would draw.
- **Directory listings are a `set<string>` of file names** that the caller
  passes in.
- **A turn is specified by its trace.** `doTurn` and `play` return, as
  ghost values, a record of what happened:
  - a `Step` per action run: the action, the input it got, the score before
    it, its outcome and what it printed;
  - a `Turn` per line played: the line, the rules in force, the actions
    chosen, the steps and the end.
  `Chain` and `Ran` say that the steps ran the chosen actions in order, each
  on the input the one before left, until one stopped the turn. `Threaded`,
  `Going`, `Stopped` and `Played` say the same for turns.
- **Score arithmetic is 32-bit.** `Score.increment`, `decrement` and the
  parsed integers wrap or are bounded as Java `int` is (`Wrap32`,
  `IsInt32`).

## Model

| member | source | states |
|---|---|---|
| Actions.CommandString | src/grow/action/Action.java:39-53 | the serialised form is the variant's prefix character followed by its body |
| Actions.TryParse | src/grow/action/Action.java:110-120 | the result is the parsed value when the text is a non-negative int, otherwise -1 |
| Actions.ParseAction | src/grow/action/Action.java:63-100 | no action exactly for the empty line, or a `+`/`-` line whose body is not a non-negative int; every parsed action is of a variant the parser produces |
| Actions.ParsedActions | src/grow/action/Extend.java:56-66 | the actions parsed from the lines, in order, with the lines that parse to none left out; never more actions than lines, and all parseable |
| Actions.ParsedActionsAppend | src/grow/action/Extend.java:56-66 | parsing two blocks of lines gives the actions of the first followed by those of the second |
| Actions.ParsedActionsAll | src/grow/action/Extend.java:56-66 | when every line parses, the k-th action is the k-th line's |
| Actions.ParseCommandString | src/grow/action/Action.java:63-100 | parsing the serialised form gives back the action, for Print, Go, ScoreChange, Quit, Restart, View and Extend |
| Actions.ParseScoreChange | src/grow/action/Action.java:72-85 | `+n` parses to ScoreChange(n) and `-n` to ScoreChange(-n) |
| Actions.ParseIgnoresBody | src/grow/action/Action.java:88-93 | `x`, `q`, `r`, `l` give Extend, Quit, Restart, View whatever follows |
| Actions.ParseUnknownPrefix | src/grow/action/Action.java:94-96 | any other first character gives Print of the whole line |
| Actions.EditorsDoNotRoundTrip | src/grow/action/Action.java:94-96 | ScoreDisplay and the editor actions serialise to lines that parse as Print (Restart for `r`), never as themselves |
| Rules.Insert | src/grow/Rule.java:119-121 | adding a pattern to a duplicate-free set keeps it duplicate-free and adds exactly that pattern |
| Rules.AddPattern | src/grow/Rule.java:119-121 | the patterns become the old ones plus the new one; actions unchanged; duplicate-freedom kept |
| Rules.AddAction | src/grow/Rule.java:129-131 | the action is appended at the end; patterns unchanged |
| Rules.WordFrom | src/grow/Rule.java:101 | true exactly when the pattern occurs as a whole word (bounded by ASCII word characters) at or after the position |
| Rules.AnyPatternMatches | src/grow/Rule.java:100-105 | true exactly when some upper-cased pattern is a whole word (bounded by ASCII word characters) of the upper-cased input |
| Rules.Matches | src/grow/Rule.java:94-106 | a rule matches exactly when it has an action and one of its patterns is a whole word (bounded by ASCII word characters) of the input, ignoring case |
| Rules.MatchesIgnoresCase | src/grow/Rule.java:101 | inputs equal up to case match the same rules |
| Rules.WholeWordExample | src/grow/Rule.java:101 | `go` matches `a GO` but not `going` |
| Rules.Commands | src/grow/Rule.java:109-111 | one command string per action, in order |
| Rules.ToString | src/grow/Rule.java:109-111 | the bracketed, backtick-joined patterns, then " -> ", then the bracketed, backtick-joined command strings; Rules.ParseRuleToString reads it back |
| Rules.ParseListAsWritten | src/grow/Rule.java:200-206 | as written: an error only when the text lacks both brackets, or is one character long |
| Rules.ParseListAsWrittenLosesText | src/grow/Rule.java:200-206 | `[go ` is parsed as written to `["g"]`, while the corrected parse refuses it |
| Rules.ParseList | src/grow/Rule.java:200-206 | corrected: an error, with "Rule condition list not enclosed by []." and the line number, exactly when either bracket is missing |
| Rules.NonEmpty | src/grow/Rule.java:163-169 | the empty items are dropped and no other item is |
| Rules.FirstBad | src/grow/Rule.java:171-182 | the position of the first non-empty item that does not parse (the length when there is none); every item before it is good |
| Rules.ParseActions | src/grow/Rule.java:171-182 | an error exactly when some non-empty item does not parse, and then it is "Action not valid: " with the first such item and the line number; otherwise the value is the non-empty items parsed, in order |
| Rules.ParseRule | src/grow/Rule.java:158-185 | built on the corrected bracket check (see Findings): "Rule format error. No ->" unless the line splits into two parts at `->`; errors carry the line number; a parsed rule has distinct, non-empty patterns and parseable actions |
| Rules.ParseRuleToString | src/grow/Rule.java:109-185 | a storable rule's line parses back to the same rule |
| Rules.ConditionsRoundTrip | src/grow/Rule.java:158-169 | the condition list of a saved rule parses back to its patterns |
| Rules.ActionsRoundTrip | src/grow/Rule.java:171-182 | the action list of a saved rule parses back to its actions |
| Rules.ParseListOfJoin | src/grow/Rule.java:200-206 | a bracketed, backtick-joined list splits back into its items |
| Rules.ParseRuleOfParts | src/grow/Rule.java:158-185 | a line whose two halves parse gives the rule of those halves, with empty and duplicate patterns dropped |
| Rules.InsertAllDistinct | src/grow/Rule.java:44-53 | collecting already distinct patterns into a set keeps their order |
| Scores.Score.constructor | src/grow/Score.java:17-19 | a new score is 0 |
| Scores.Score.Increment | src/grow/Score.java:28-31 | adds the amount with 32-bit wrap-around and returns the new value |
| Scores.Score.Decrement | src/grow/Score.java:40-42 | subtracts the amount with 32-bit wrap-around and returns the new value |
| Scores.Score.Set | src/grow/Score.java:51-53 | the score becomes the value, which is returned |
| Scores.Score.ToString | src/grow/Score.java:63-65 | the text parses back to the score |
| Scores.WrapSum | src/grow/Score.java:28-42 | wrapping once per step equals wrapping the total, so `decrement(d)` is `increment(-d)` |
| Scenes.Scene.constructor | src/grow/Scene.java:50-68 | a new scene has the given name and description and no rules |
| Scenes.Scene.SetDescription | src/grow/Scene.java:107-109 | only the description changes |
| Scenes.FirstMatchFrom | src/grow/Scene.java:119-126 | the first matching rule at or after a position, or none |
| Scenes.FirstActions | src/grow/Scene.java:119-126 | no result exactly when no rule matches; otherwise the actions of the first rule that matches |
| Scenes.Scene.Act | src/grow/Scene.java:119-126 | dispatch on the scene's rules is the first match, and reads the scene without changing it |
| Scenes.RuleLines | src/grow/Scene.java:145-148 | one rule line per rule, in order |
| Scenes.Scene.Save | src/grow/Scene.java:141-149 | "Name: ", then "Description: ", then one line per rule in list order |
| Codec.Extract | src/grow/Game.java:401-410 | succeeds exactly when the line has the prefix and more after it; otherwise it fails with "Line does not start with: ..." or "No data after: ..." |
| Codec.ExtractPrefixed | src/grow/Game.java:401-410 | the prefix followed by non-empty data extracts that data |
| Codec.ParseRules | src/grow/Game.java:355-372 | each rule line read advances the line counter by one |
| Codec.CollectScenes | src/grow/Game.java:372-380 | a repeated scene name gives SyntaxError(-1, "Duplicate scene: ...") |
| Codec.ParseWorldSpec | src/grow/Game.java:336-385 | a parsed world contains its start scene; missing header lines give "Expected line, but none found." at the right line |
| Codec.LoadStateSpec | src/grow/Game.java:227-242 | the state is set only from a "Current: " line naming a known scene and a "Score: " line holding an int |
| Codec.LoadSaveState | src/grow/Game.java:195-242 | reading the saved state restores the current scene and the score |
| Codec.LoadStateUnknownScene | src/grow/Game.java:227-242 | a saved state naming an unknown scene gives NoSuchScene |
| Codec.ParseRuleLines | src/grow/Game.java:355-372 | saved rule lines followed by the separator parse back to the rules |
| Codec.ParseSceneBlocks | src/grow/Game.java:355-380 | saved scene blocks parse back to the scenes in order |
| Codec.CollectEnumerated | src/grow/Game.java:372-380 | collecting the parsed scenes rebuilds exactly the scene map |
| Codec.ParseSaveWorld | src/grow/Game.java:207-214 | parsing the saved world gives back its name, start scene and scene map |
| Codec.ParseWorld | src/grow/Game.java:336-385 | the line-by-line loop computes the parse specification |
| Codec.Collect | src/grow/Game.java:372-380 | the loop that fills the scene map computes the specification |
| Codec.ReadScene | src/grow/Game.java:355-380 | reading one scene block agrees with the parse specification |
| Codec.ReadRules | src/grow/Game.java:362-372 | reading the rule lines of one block agrees with the parse specification |
| Games.ParseGameSpec | src/grow/Game.java:318-324 | a parsed game's current scene belongs to it; an adventure error passes through; without a state file, play starts at the start scene with score 0 |
| Games.Game.World | src/grow/Game.java:207-214 | the saved view of the world has the game's scene names, name and start scene |
| Games.Game.constructor | src/grow/Game.java:63-74 | the world holds just the start scene; current is start and the score 0 |
| Games.Game.Restart | src/grow/Game.java:113-116 | current becomes start and the score 0; the scenes stay |
| Games.Game.AddScene | src/grow/Game.java:134-140 | SceneExists with the map unchanged when the name is taken; otherwise exactly that entry is added |
| Games.Game.GetScene | src/grow/Game.java:147-149 | the scene of that name, or null when there is none |
| Games.Game.Move | src/grow/Game.java:180-186 | current becomes next when next is null or a scene of the world; otherwise NoSuchScene and current is unchanged |
| Games.Game.SaveState | src/grow/Game.java:195-198 | reading the saved lines back restores current and score |
| Games.Game.SaveWorld | src/grow/Game.java:207-214 | reading the saved lines back gives the same world |
| Games.Game.LoadState | src/grow/Game.java:227-242 | current and score are set as the state lines say; an unknown scene gives NoSuchScene; bad or missing lines change nothing |
| Games.Game.LoadGameFrom | src/grow/Game.java:296-303 | the game takes over the other game's scenes, start, current, score and name; loading a game into itself empties its scene map, since the map is cleared before it is copied |
| Games.Game.LoadGame | src/grow/Game.java:279-288 | both files are parsed before anything changes: on an error the game is unchanged; otherwise it holds the parsed game |
| Util.Judge | src/grow/action/Util.java:168-179 | a trimmed `:cancel` cancels, and only it; a line with a backtick is refused with "Your input may not contain `."; otherwise the converter decides: its value is accepted, its refusal gives the caller's message |
| Util.ReadLoop | src/grow/action/Util.java:168-182 | the loop consumes lines up to and including the one that ends it |
| Util.ReadLoopJudged | src/grow/action/Util.java:168-182 | the value read, or the cancel, comes from the last line consumed |
| Util.ReadLoopAccepted | src/grow/action/Util.java:168-182 | a value returned is the converted last line consumed |
| Util.ReadLoopCanceled | src/grow/action/Util.java:170-171 | a cancel comes from a last line that trims to `:cancel` |
| Util.PromptLines | src/grow/action/Util.java:164-167 | nothing is printed exactly when the prompt is empty |
| Util.JudgeLine | src/grow/action/Util.java:169-179 | judging one line in the loop body gives the verdict of the specification |
| Util.ReadLoopRefused | src/grow/action/Util.java:168-182 | every line before it was refused, and the message of each was printed |
| Util.Read | src/grow/action/Util.java:162-182 | the prompt (if not empty) and the refusals are printed; the result is the loop's |
| Util.ReadIdentity | src/grow/action/Util.java:162-182 | reading text refuses only backtick lines and returns the trimmed line |
| Util.ReadListFrom | src/grow/action/Util.java:209-242 | a list is returned only when the checker holds on it |
| Util.ReadListOfItems | src/grow/action/Util.java:209-242 | accepted lines followed by a blank line give exactly those items, in order |
| Util.ReadList | src/grow/action/Util.java:209-242 | the loop computes the read-list specification |
| Util.ReadListEnds | src/grow/action/Util.java:209-242 | a blank line ends the list when the checker accepts the items read so far |
| Util.ReadInt | src/grow/action/Util.java:277-290 | a value read lies in [min, max] |
| Util.EmptyRangeNeverReads | src/grow/action/Util.java:277-290 | an empty range never yields a value |
| Util.ParseAll | src/grow/action/Util.java:337-347 | the token list parses exactly when every token is an int, in order |
| Util.ReadIntsLoop | src/grow/action/Util.java:330-355 | a list is returned only when the checker accepts it, and at least one line is consumed |
| Util.ReadInts | src/grow/action/Util.java:330-355 | the loop computes the specification; a list returned satisfies the checker |
| Util.ParseTokens | src/grow/action/Util.java:337-347 | the token loop computes the all-tokens parse |
| Util.IntsOfLine | src/grow/action/Util.java:334-347 | the integers of one line: none for a line with a bad token, the empty list for an empty line |
| Util.MinMaxScan | src/grow/action/Util.java:367-379 | the scan succeeds exactly when every element is in [min, max] |
| Util.MinMaxScanSet | src/grow/action/Util.java:367-379 | the set built by the scan is exactly the elements seen |
| Util.ElementCount | src/grow/action/Util.java:377 | the set of elements is as large as the list exactly when nothing repeats |
| Util.Range | src/grow/action/Util.java:426-428 | the numbers 1..n, n of them |
| Util.IntListMinMax | src/grow/action/Util.java:367-379 | holds exactly when every element is in [min, max] and none repeats |
| Util.ReadIntsInRange | src/grow/action/Util.java:401-403 | returns distinct integers in [min, max] |
| Util.ReadIntsCounted | src/grow/action/Util.java:453-457 | returns distinct integers in [min, max], between minCount and maxCount of them |
| Util.ReadIntsBlankLine | src/grow/action/Util.java:334-335 | an empty line gives the empty list |
| Util.DistinctInRangeCoversAll | src/grow/action/Util.java:426-428 | n distinct integers in 1..n name every position, so the order read is a permutation |
| Util.HandleCancel | src/grow/action/Util.java:489-496 | a cancel prints "Canceled." and gives the current scene; anything else passes through |
| Util.FirstOrNone | src/grow/action/Util.java:137-139 | "[none]" for an empty collection, otherwise its first element |
| Util.PrettyRule | src/grow/action/Util.java:114-129 | one pattern and one action give the two one-line forms |
| Util.PrettyRulePatterns | src/grow/action/Util.java:114-129 | several patterns give "Patterns:" and a numbered list |
| Util.PrettyRuleActions | src/grow/action/Util.java:114-129 | several actions give "Actions:" after the pattern lines and their command strings numbered from 1, indented by two; the layout has exactly that many lines |
| Util.NumberedSingles | src/grow/action/Util.java:59-79 | one-line entries are numbered from the first number on, one line each |
| Util.NumberedLineShape | src/grow/action/Util.java:63-67 | a numbered line starts with the indent, the number and its "." padded to five columns and a space, ends with the text, and is exactly that long |
| Util.NumberedEntry | src/grow/action/Util.java:61-76 | the first line is numbered and the others are indented to match |
| Util.NumberedList | src/grow/action/Util.java:59-79 | every line of every entry is printed, once: the list has as many lines as the entries together |
| Util.NumberedListEntry | src/grow/action/Util.java:59-79 | the lines of the k-th entry come right after those of the entries before it, printed as an entry numbered first + k |
| Util.FlattenAt | src/grow/action/Util.java:61-77 | the entries are printed one after another: line i of entry k stands after all the lines of the entries before it |
| Util.RuleIndex | src/grow/action/Util.java:311 | a rule number read becomes that number minus one; a cancel or running out passes through |
| Util.RuleNumber | src/grow/action/Util.java:307-312 | the rule index read lies in [0, size) |
| Util.GetRuleNumber | src/grow/action/Util.java:307-312 | prints the prompt and the numbered rules, then reads a number in 1..size and returns it minus one |
| Acts.ScoreChangeLine | src/grow/action/ScoreChange.java:41 | the sign character, a space, then the size of the change |
| Acts.ChangeScore | src/grow/action/ScoreChange.java:39-43 | the score grows by the change and the change line is printed |
| Acts.Go | src/grow/action/Go.java:40-58 | an existing scene is returned unchanged; a missing one is created with the next input line as its description and added; the returned scene has the target name and its description is printed |
| Acts.NewSceneLines | src/grow/action/Go.java:42-43 | two lines: "Creating new scene: " with the target, then "Description: " |
| Acts.Restart | src/grow/action/Restart.java:14-18 | score 0 and current at start; the start scene is returned and its description printed |
| Acts.RuleListing | src/grow/action/View.java:28-31 | one line per rule, numbered from 1 in list order |
| Acts.ViewLine | src/grow/action/View.java:29 | the number left-aligned and padded with spaces to five columns, a space, then the rule's text |
| Acts.ViewLines | src/grow/action/View.java:25-33 | "Scene: " and the name, then the numbered rules |
| Acts.QuitLine | src/grow/action/Quit.java:20 | "Score: " followed by the score's decimal |
| Acts.ScoreDisplayLine | src/grow/action/ScoreDisplay.java:24 | "Your score is: " followed by the score's decimal |
| Acts.PatternLines | src/grow/action/Extend.java:29-34 | lines up to the first empty one, collected as a set |
| Acts.PatternLinesBlock | src/grow/action/EditPattern.java:22-29 | the patterns gathered are exactly the old ones and the lines of the block before the first empty line, and the input resumes after that line (none when there is none) |
| Acts.ReadPatterns | src/grow/action/Extend.java:29-34 | the loop computes the pattern specification |
| Acts.ActionLines | src/grow/action/Extend.java:53-69 | the old actions stay a prefix and every action is parseable (what is appended is stated by Acts.ActionLinesBlock) |
| Acts.Block | src/grow/action/Extend.java:56-60 | the lines before the first empty one: a prefix holding no empty line, followed by an empty line unless it is all the input |
| Acts.BlockWhole | src/grow/action/Extend.java:56-60 | the block is the whole input exactly when no line is empty |
| Acts.BadLines | src/grow/action/Extend.java:61-63 | one message per line that does not parse, none when every line parses |
| Acts.ActionLinesBlock | src/grow/action/Extend.java:53-69 | the actions of the block's parseable lines are appended in order, one message is printed per unparseable line, and the input after the empty line is left (none when there is no empty line) |
| Acts.ReadActions | src/grow/action/Extend.java:53-69 | the loop computes the action specification |
| Acts.ExtendRead | src/grow/action/Extend.java:28-36 | the rule read has distinct, non-empty patterns and parseable actions; after the pattern block, the rule's actions are those of the parseable lines of the action block, and "Bad action!" is printed for each other line |
| Acts.ExtendReadsRule | src/grow/action/Extend.java:28-37 | pattern lines, a blank, action lines and a blank give exactly that rule |
| Acts.PatternBlock | src/grow/action/Extend.java:29-34 | distinct pattern lines before a blank are collected in order |
| Acts.ActionBlock | src/grow/action/Extend.java:53-69 | parseable action lines before a blank are all kept, in order |
| Acts.ReadExtension | src/grow/action/Extend.java:28-36 | the reading part of extend computes its specification |
| Acts.Extend | src/grow/action/Extend.java:28-40 | exactly one rule is appended to the current scene; the current scene is returned |
| Turns.PerformPlain | src/grow/action/Quit.java:19-23 | Quit prints "Score: " and the score and returns null, ending the game; likewise for the other printing actions (`act` of Print, View, ScoreDisplay and ScoreChange): Print prints its text, View the scene name and numbered rules, ScoreDisplay "Your score is: " and the score, ScoreChange adds with 32-bit wrap-around and prints the change line, and each returns the current scene |
| Turns.PerformMove | src/grow/action/Go.java:40-58 | Go returns the scene of its target, which belongs to the world, with score and current unchanged; Restart (`Restart.act`) sets the score to 0 and current to start and returns the start scene; scenes that existed stay as they were and any new one is fresh |
| Turns.PerformEditor | src/grow/action/Extend.java:28-40 | Extend and the new editors return the current scene and keep the world's scene map, start and name; a cancel never escapes them |
| Turns.PerformRuleEdit | src/grow/action/Remove.java:19-25 | Edit, Reorder and Remove run inside handleCancel: they return the current scene, keep the world's scene map, start and name, and a cancel never escapes them |
| Turns.PerformOld | src/grow/action/EditOrder.java:22-58 | the old editors return the current scene when they finish and keep the world's scene map, start and name |
| Turns.Perform | src/grow/GrowGame.java:180-181 | an action returns null exactly when it ends the game; other results are scenes of the world; only an old editor lets a cancel escape; scenes that existed stay as they were |
| Turns.StoredActionsNeverEscape | src/grow/action/Action.java:63-100 | no action read from a file is an old editor, and only Quit ends the game |
| Turns.Chosen | src/grow/GrowGame.java:173-176 | a `:` line goes to the built-in commands first; otherwise, or when none matches, the whole line goes to the scene |
| Turns.CommandsShadowScene | src/grow/GrowGame.java:173-176 | a matching built-in command hides the scene's rules |
| Turns.SceneTakesTheRest | src/grow/GrowGame.java:173-176 | without a matching command the scene decides |
| Turns.OnlyQuitEnds | src/grow/GrowGame.java:103-123 | the only built-in command whose action ends the game is `quit`, and that action saves and quits |
| Turns.CommandsNeverEscape | src/grow/GrowGame.java:103-123 | each built-in command has one pattern and one action, and none is an old editor |
| Turns.GrowGame.constructor | src/grow/GrowGame.java:98-124 | no world is loaded yet |
| Turns.GrowGame.Init | src/grow/GrowGame.java:135-143 | loads the world only if none is loaded |
| Turns.GrowGame.Advance | src/grow/GrowGame.java:182-197 | a scene of the world becomes current; null, or a scene the world lacks (reported), clears the world |
| Turns.GrowGame.DoTurn | src/grow/GrowGame.java:170-201 | the actions chosen for the line (built-in commands first, then the scene) run as RunActions runs them; with none chosen the one reply is printed and nothing changes; the game is over exactly when the world is cleared |
| Turns.GrowGame.RunActions | src/grow/GrowGame.java:180-198 | the actions run in list order, each on the input the previous one left, each result moved to; the run stops after an action that ends the game, an escaped cancel or the end of input, and otherwise runs every action; the output is what the steps printed, in order |
| Turns.GrowGame.PlayTurn | src/grow/GrowGame.java:236 | one more turn on the first line left, recorded after the turns so far |
| Turns.GrowGame.Play | src/grow/GrowGame.java:234-239 | the turns played are threaded on the input, each a doTurn of the next line; every turn but the last kept playing; the result is the last turn's end, or the input or the turn budget ran out while playing; the output is what the turns printed |
| Traces.ChainAt | src/grow/GrowGame.java:180-198 | the k-th step ran the k-th action, as acts do, on the input the step before left, and the steps before the last returned a scene |
| Traces.ChainStep | src/grow/GrowGame.java:180-198 | a step of the next action on the input left extends a chain, and its output is appended |
| Traces.RanStops | src/grow/GrowGame.java:189-192 | no action before the last step ended the game or cancelled; the game is over exactly when the last action run ends it; a turn that keeps playing ran no ending action |
| Traces.TurnStops | src/grow/GrowGame.java:177-200 | only a turn that chose actions stops playing; it is over exactly when the last action it ran ends the game; an escaped cancel comes from an older editor |
| Traces.QuitRunsTwo | src/grow/GrowGame.java:189-192 | a print, a quit and a print stop after two steps with the game over |
| Traces.QuitStopsTheTurn | src/grow/GrowGame.java:180-192 | the print before the quit runs, the print after it never does, and the turn prints the text and the quit line |
| Traces.ThreadedAt | src/grow/GrowGame.java:234-239 | the k-th turn chose its actions and ran them; the first read the first line; each turn before the last kept playing and left the next turn's line |
| Traces.ThreadedStep | src/grow/GrowGame.java:234-239 | a turn on the input left extends threaded turns, and its output is appended |
| Traces.TakeTurn | src/grow/GrowGame.java:236 | after one more turn the turns are either still going, on what that turn left, or stopped with its end |
| Editors.KeptMembers | src/grow/action/Edit.java:68-76 | the elements kept are exactly those at unselected positions |
| Editors.KeptAppend | src/grow/action/Edit.java:100-108 | removal keeps order: what is kept of two lists joined is what is kept of the first followed by what is kept of the second |
| Editors.KeptLength | src/grow/action/Edit.java:68-76 | as many elements are removed as positions are selected |
| Editors.KeptDistinct | src/grow/action/Edit.java:68-76 | removing patterns keeps the set duplicate-free |
| Editors.RemoveSelected | src/grow/action/Edit.java:68-76 | the iterator loop computes the kept elements |
| Editors.Permuted | src/grow/action/Edit.java:132-135 | position k holds the old element at order[k]-1 |
| Editors.PermutedMultiset | src/grow/action/Reorder.java:28-33 | a distinct 1..n order of length n permutes the list: same multiset |
| Editors.Rearranged | src/grow/action/Edit.java:132-135 | the copy loop computes the permuted list |
| Editors.AddPatternsOf | src/grow/action/Edit.java:77 | only patterns are added; nothing changes on a cancel |
| Editors.AddPatterns | src/grow/action/Edit.java:77 | the chosen rule becomes the pattern-adding result; the other rules and the description stay |
| Editors.EditPatternsMeans | src/grow/action/Edit.java:64-78 | removes exactly the selected patterns, then adds the ones read; a cancel in selection changes nothing |
| Editors.RemovedThenInserted | src/grow/action/Edit.java:64-78 | removals are kept even if adding is then cancelled |
| Editors.AddActionsOf | src/grow/action/Edit.java:109 | new actions are appended after the old ones |
| Editors.AddActions | src/grow/action/Edit.java:109 | the chosen rule becomes the action-adding result; the other rules and the description stay |
| Editors.EditActionsMeans | src/grow/action/Edit.java:96-110 | nothing changes unless the positions are read; then the actions start with the unselected ones, in their old order with repeats (Kept, one fewer per position) and end with the ones read |
| Editors.RemovedThenAdded | src/grow/action/Edit.java:96-110 | the result is the unselected actions in their old order (Kept), exactly those at unselected positions and one fewer per position, followed by the new ones |
| Editors.OrderOf | src/grow/action/Edit.java:128-138 | the reordered list has the same multiset; nothing changes when no order is read |
| Editors.ReorderActionsOf | src/grow/action/Edit.java:128-138 | a rule's actions are permuted; its patterns stay |
| Editors.EditOption | src/grow/action/Edit.java:31-43 | only the chosen rule can change; an answer of 0 (option -1) changes nothing; a finished edit ends with "Edit complete." |
| Editors.EditRun | src/grow/action/Edit.java:24-46 | a cancel while choosing the rule or the option leaves every rule unchanged; only the chosen rule can change |
| Editors.EditPatterns | src/grow/action/Edit.java:64-78 | the scene's chosen rule becomes the pattern edit's result |
| Editors.EditActions | src/grow/action/Edit.java:96-110 | the scene's chosen rule becomes the action edit's result |
| Editors.ReorderActions | src/grow/action/Edit.java:128-138 | the scene's chosen rule becomes the reordered rule |
| Editors.Conclude | src/grow/action/Util.java:489-496 | a cancel prints "Canceled." and returns the current scene |
| Editors.Edit | src/grow/action/Edit.java:24-46 | the scene's rules become the edit's result and the current scene is returned |
| Editors.Reorder | src/grow/action/Reorder.java:23-37 | the rules are replaced by the order read (a permutation); a cancel changes nothing; prints "Reorder complete." |
| Editors.Remove | src/grow/action/Remove.java:19-25 | exactly the chosen rule is removed, the rest keep their order, "Done." is printed; a cancel removes nothing |
| Editors.ChangeDescription | src/grow/action/ChangeDescription.java:18-28 | the description becomes the line read; a cancel keeps it; name and rules unchanged |
| Editors.DescriptionRead | src/grow/action/ChangeDescription.java:22 | a new description is never ":cancel" and never holds a backtick |
| Legacy.OrderToken | src/grow/action/EditOrder.java:29-37 | a token counts only if it is an int in 1..n |
| Legacy.TakeTokens | src/grow/action/EditOrder.java:28-46 | a bad token clears the order and prints "Bad order!"; otherwise all tokens are appended |
| Legacy.OrderLoop | src/grow/action/EditOrder.java:26-47 | exactly n indices in 0..n-1 are collected across lines |
| Legacy.OrderLineAccepted | src/grow/action/EditOrder.java:26-47 | one line of n good tokens gives that order |
| Legacy.OrderLineRefused | src/grow/action/EditOrder.java:35-45 | a line holding a bad token starts again from nothing |
| Legacy.TakeLine | src/grow/action/EditOrder.java:28-46 | the token loop computes the token specification |
| Legacy.ReadOrder | src/grow/action/EditOrder.java:26-47 | the loop computes the order specification |
| Legacy.Picked | src/grow/action/EditOrder.java:48-51 | position k holds the old element at order[k] |
| Legacy.EditOrder | src/grow/action/EditOrder.java:22-58 | the rules become the old rules picked by the order read, repeats allowed; "Order changed: " and the listing are printed |
| Legacy.OrderRules | src/grow/action/EditOrder.java:48-57 | an order read puts the old rule at order[k] in position k and prints "Order changed: " and the listing; no order read changes nothing |
| Legacy.EditOrderKeepsRules | src/grow/action/EditOrder.java:48-54 | every new rule is an old rule |
| Legacy.ActionListing | src/grow/action/EditActionOrder.java:16-20 | one padded, numbered line per action |
| Legacy.EditActionOrder | src/grow/action/EditActionOrder.java:14-55 | only the chosen rule's actions change, to the old ones picked by the order read |
| Legacy.OrderActions | src/grow/action/EditActionOrder.java:45-54 | an order read puts the old action at order[k] in position k of the chosen rule only; no order read changes nothing |
| Legacy.ChoiceLoop | src/grow/action/EditAction.java:22-26 | asks until the answer is A or R, in either case |
| Legacy.ReadChoice | src/grow/action/EditAction.java:22-26 | the question loop computes the choice specification |
| Legacy.Confirmed | src/grow/action/EditAction.java:43-49 | positions answered yes lie within the list |
| Legacy.AskRemoval | src/grow/action/EditAction.java:43-49 | one question per item while input lasts |
| Legacy.AskRemovalKeeps | src/grow/action/EditAction.java:43-49 | the items kept are exactly those not answered yes |
| Legacy.AskEach | src/grow/action/EditAction.java:43-49 | the question loop computes the removal specification |
| Legacy.ActionNames | src/grow/action/EditAction.java:45 | each action is named by its command string |
| Legacy.AddedPatterns | src/grow/action/EditPattern.java:20-29 | the patterns become exactly the old ones and the lines before the first blank one, still a set, nothing is printed, and the input resumes after the blank line (none when it ran out) |
| Legacy.AddedActions | src/grow/action/EditAction.java:29-41 | the lines up to the first blank one are read; the actions of those that parse are appended in order, "Bad action" is printed for each other, and the input resumes after the blank line (none when it ran out) |
| Legacy.ActionEditOf | src/grow/action/EditAction.java:22-50 | add mode appends the actions of the parseable lines before the first blank, in order, and prints "Bad action" for each other line; remove mode keeps those not confirmed; patterns stay |
| Legacy.PatternEditOf | src/grow/action/EditPattern.java:15-38 | add mode: the patterns are exactly the old ones and the lines before the blank one, the prompt is printed and the input resumes after the blank line; remove mode keeps those not confirmed; actions stay |
| Legacy.EditRuleActions | src/grow/action/EditAction.java:22-50 | editing one rule's actions computes the action-edit specification |
| Legacy.EditRulePatterns | src/grow/action/EditPattern.java:15-38 | editing one rule's patterns computes the pattern-edit specification |
| Legacy.EditAction | src/grow/action/EditAction.java:20-53 | only the chosen rule changes, to what Legacy.ActionEditOf gives; "Action edit complete: " and the rule are printed |
| Legacy.EditPattern | src/grow/action/EditPattern.java:13-41 | only the chosen rule's patterns change; "Pattern edit complete: " and the rule are printed |
| Legacy.RemoveRule | src/grow/action/RemoveRule.java:19-24 | the chosen rule is removed, the count drops by one, the others keep their order, "Done." is printed |
| Names.Sort | src/grow/SaveManager.java:145-162 | hidden names are skipped; the others split into those with the suffix and those without |
| Names.Classify | src/grow/SaveManager.java:145-169 | bad states, bad adventures and states without an adventure, as clean finds them |
| Names.OrphanIff | src/grow/SaveManager.java:163-169 | a good state `X_state.txt` lacks an adventure exactly when `X.zip` is not a good adventure |
| Names.SortPartitions | src/grow/SaveManager.java:145-162 | every visible name is either bad or good, never both |
| Names.DigitRun | src/grow/SaveManager.java:747-751 | the longest run of digits at the end of the name |
| Names.VersionSplit | src/grow/SaveManager.java:747-751 | a name ending `_v` and digits splits into its stem and digits |
| Names.VersionSplitMatches | src/grow/SaveManager.java:747-751 | every stem `_v` digits name is recognised |
| Names.VersionStart | src/grow/SaveManager.java:747-755 | a free name starts at version 1 as it is; a taken name with no `_vN` also starts at 1; a taken `stem_vN` continues from N, and there is no start only when N is beyond the int range |
| Names.NextFree | src/grow/SaveManager.java:756-761 | the first version above the start whose name is free; all versions between are taken |
| Names.CountVersions | src/grow/SaveManager.java:756-761 | the counting loop computes that version |
| Names.Suggestion | src/grow/SaveManager.java:747-761 | the suggested name is never taken; a free name is suggested as it is |
| Names.SuggestionContinues | src/grow/SaveManager.java:747-761 | `X_vN` continues at a version above N with every version between taken |
| Names.Suggest | src/grow/SaveManager.java:747-761 | the loop computes the suggestion |
| Names.RenameLoop | src/grow/SaveManager.java:764-773 | the final name ends in `.zip` and is never taken; a free name is kept without asking |
| Names.BlankTakesSuggestion | src/grow/SaveManager.java:764-773 | a blank answer takes the suggestion |
| Names.Rename | src/grow/SaveManager.java:764-773 | the prompt loop computes the rename specification |
| Names.ImportName | src/grow/SaveManager.java:741-773 | "Bad file!" for a missing or non-`.zip` file; otherwise the adventure name chosen is never taken |
| Names.AlphNum | src/grow/SaveManager.java:956-965 | each draw in 0..61 gives a letter or digit |
| Names.AlphNumIndexOf | src/grow/SaveManager.java:956-965 | 0..25 map to a..z, 26..51 to A..Z, 52..61 to 0..9, one-to-one |
| Names.AlphNumOf | src/grow/SaveManager.java:956-965 | every letter and digit is drawn by exactly one number |
| Names.StoryCandidate | src/grow/SaveManager.java:924-928 | "story_" followed by six drawn characters |
| Names.FirstFreeStory | src/grow/SaveManager.java:924-928 | the first candidate whose adventure file is free |
| Names.PickStoryName | src/grow/SaveManager.java:924-928 | the drawing loop computes the first free candidate |
| Names.NameLoopAsWritten | src/grow/SaveManager.java:929-935 | as written: an accepted name is free |
| Names.BlankRefusedAsWritten | src/grow/SaveManager.java:929-935 | as written, a blank line is refused when a file `.zip` exists |
| Names.NameLoop | src/grow/SaveManager.java:929-935 | corrected: a blank line is always accepted; a typed name is accepted only if free |
| Names.NameLoopAgrees | src/grow/SaveManager.java:929-935 | without a file `.zip` the corrected and written loops agree |
| Names.StoryNameFree | src/grow/SaveManager.java:921-937 | the chosen adventure name is never taken |
| Names.ReadStoryName | src/grow/SaveManager.java:929-935 | the prompt loop computes the corrected name loop |
| Names.NewGame | src/grow/SaveManager.java:921-937 | built on the corrected name loop (see Findings): a fresh game with one empty "start" scene with the welcome text, score 0, under a name not taken |
| Names.LastIndex | src/grow/SaveManager.java:640 | the last position of the character, or -1 |
| Names.SoundExtension | src/grow/SaveManager.java:638-646 | accepted exactly when the text after the last `.` is mp3, wav or aac |
| Names.SavedSoundFound | src/grow/SaveManager.java:326-331 | a sound saved for a scene is found again for it |
| Names.SoundEntryIsSaved | src/grow/SaveManager.java:326-331 | every entry found is the name saving would write |
| Names.FindSound | src/grow/SaveManager.java:326-331 | the first entry that is the scene name, `.` and an allowed extension, or none |
| Args.ProcessArgs | src/gui/Grow.java:436-449 | the loop computes the fold over the arguments |
| Args.Run | src/gui/Grow.java:440-445 | the non-flag arguments up to the next flag |
| Args.OkIff | src/gui/Grow.java:436-449 | success exactly when the first argument (if any) is a flag and no flag repeats |
| Args.Error | src/gui/Grow.java:436-449 | "Unrecognized flag: " for a leading non-flag; otherwise "Duplicate flag: " at the first repeat |
| Args.Keys | src/gui/Grow.java:436-442 | the keys of the result are exactly the flags given |
| Args.Values | src/gui/Grow.java:440-445 | each flag maps to the non-flag arguments after it, in order |
| Args.OnlyFlag | src/gui/Grow.java:436-449 | the result is one flag with some values exactly when the arguments are that flag and those values |
| Args.TestSize | src/gui/Grow.java:391-395 | an error exactly when the size differs from the one wanted |
| Args.Main | src/gui/Grow.java:274-335 | a bad command line gives the processing error; `--set-root`, `--reset-root` and `--help` each come alone; a start has the text mode exactly when `-t` is given and a root exactly when `--grow-root` is, with its one argument |
| Args.SetRootAlone | src/gui/Grow.java:274-281 | `--set-root` is accepted only alone and with exactly one argument |
| Args.ResetRootAlone | src/gui/Grow.java:282-287 | `--reset-root` is accepted only alone and without arguments |
| Args.HelpAlone | src/gui/Grow.java:288-305 | `--help` is accepted only alone and without arguments |
| Args.TextModeIgnoresArguments | src/gui/Grow.java:313-335 | `-t` followed by non-flag words starts text mode and ignores them |
| Args.Printed | src/gui/Grow.java:288-335 | bad arguments print "Bad arguments: " and the message; help prints the 13-line usage |

## Left out

- Randomness: `GrowGame.randomResponse` and `Math.random` are not modelled; the reply and the draws are parameters.
- Directory listing, file reading and writing, archives (`ZipLocker`), the preference store and `current_adventure.txt` are not modelled. The `:save`, `:change story`, `:new` and `:import` commands keep the world and scene as they are in the turn model. `Names` models only the name logic these commands use.
- `Save` and `Read` actions, and the save before quitting (`SaveManager.quitAction`): file I/O; the quit command is modelled as a Quit that ends the game.
- GUI, media and concurrency: `Grow.start`, `Console`, `SoundPlayer`, image and sound linking, `MediaProcessor`/`StatusUpdater` callbacks and the game thread.
- `clean`'s deletion prompts and the deletions themselves: I/O; only the classification is modelled.
- `main`'s root lookup, `setRoot`, `mkdirs`, the "Using ... to store grow files.." line and starting the GUI: I/O; `Args.Main` returns what `main` would launch.
- Regular expressions: `Rule.matches` compiles patterns as Java regexes; the model treats a pattern as a literal and matches it as a whole word.
- Case folding is ASCII only: `String.toUpperCase` for non-ASCII characters is not modelled.
- Rules.IsWordChar: the word characters of `\b` are ASCII letters, digits and `_`. Java's `\b` also counts every other character that `Character.isLetterOrDigit` accepts, and the model carries no Unicode category tables. So for pattern `CAF` and input `CAFÉ` the model sees a boundary before `É` and Java does not.
- Rules.WordFrom: the whole-word test rests on `Rules.IsWordChar`, so it agrees with Java's `\b` only where the characters beside the match are ASCII or not letters or digits.
- Rules.AnyPatternMatches: the same ASCII word alphabet. `CAF` counts as a whole word of `CAFÉ` here, but not in Java.
- Rules.Matches: its "exactly when a whole word" reading inherits the ASCII word alphabet of `Rules.IsWordChar`. So do `Scenes.FirstMatchFrom`, `Scenes.FirstActions`, `Scenes.Scene.Act` and `Turns.Chosen`, which choose rules through it.
- `HashMap`/`HashSet` order: `SaveWorld` takes the scene order as a parameter and pattern sets keep insertion order.
- Rule aliasing: `EditOrder` can put one `Rule` object at two positions, after which editing one edits both; the model's rules are values.
- Exceptions escaping an action: the old editors do not catch `:cancel`, `read` throws `CanceledException` out of `doTurn`; the model stops the turn with `CancelEscaped`.
- `printStackTrace` output after a failed move is not modelled; only the "Something bad has occurred..." line is.
- `Turns.GrowGame.Play` runs at most the given number of turns (a fuel bound), since the source loops until the game ends.
- `Editors.ReorderActions`, `Legacy.EditOrder` and the other editors print through `Util.printNumberedList`, whose `printf` padding is modelled by `Text.PadRight`, not checked against Java's `%-Ns` for wider numbers.
- `Names.NextFree` does not model the wrap of `++v` past 2147483647; the model counts on in unbounded integers.
- `Args.Printed` gives one output sequence: `main` writes "Bad arguments: " to standard error and the help to standard output, and the model does not tell the two streams apart.
- `Turns.HelpText` is the help message as one string with embedded newlines, as the source stores it.
- `Rules.ParseRule` follows the corrected bracket check of `Rules.ParseList`, not the `&&` check as written: a line such as `[go -> []`, which `Rule.parseRule` accepts as patterns {"g"} with no actions, is refused with "Rule condition list not enclosed by [].". The same holds for `Codec.ParseWorldSpec`, `Codec.ParseWorld` and `Games.Game.LoadGame`, which read rule lines through it. The written check is `Rules.ParseListAsWritten`.
- `Names.NewGame` follows the corrected `Names.NameLoop`: with a file named `.zip` in the directory, `newGame` refuses a blank line, which the model accepts. The written loop is `Names.NameLoopAsWritten`.
- `Text.ParseInt` accepts ASCII digits only; `Integer.parseInt` also accepts the other Unicode decimal digits (through `Character.digit`). This carries into `Actions.TryParse`, `Util.ReadInt` and `Util.ReadInts`.
- `Turns.GrowGame.RunActions` records each action's step only as far as every act promises (a scene or null, a cancel only from an older editor, what Print and the quitting actions print); which scene each other action returns is stated by the act methods, not carried into the trace.
- `ScoreChange.commandBody` of `Integer.MIN_VALUE` (where `Math.abs` overflows) is outside the model: actions read back from text never hold it.

## Findings

| source | as written | input that shows it | evidently intended | confidence | as-written member | corrected member |
|---|---|---|---|---|---|---|
| src/grow/Rule.java:202 | `parseList` fails only when the text lacks both `[` and `]` (`&&`), then cuts one character from each end | the condition list `[go ` is accepted and read as `g`, silently losing text | fail when either bracket is missing (`\|\|`), as the message "not enclosed by []" says | medium: not executed | Rules.ParseListAsWritten | Rules.ParseList |
| src/grow/SaveManager.java:931 | `newGame` refuses a typed name whose `name + ".zip"` is taken, checked before the blank-line fallback | with a file named `.zip` in the directory (hidden files are listed too), a blank line is answered "That name is already taken" instead of taking the suggestion | a blank line always takes the generated name, as the prompt promises | low: not executed | Names.NameLoopAsWritten | Names.NameLoop |
