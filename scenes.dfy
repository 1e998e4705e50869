/**
 * Scenes: a named place with a description and an ordered list of rules.
 * The name never changes; the description and the rules are edited in place.
 */
module Scenes {
  import opened Wrappers
  import opened Actions
  import opened Rules

  /** What a scene holds, apart from its name and its identity. */
  datatype SceneData = SceneData(description: string, rules: seq<Rule>)

  /** One stored line per rule, in list order. */
  function RuleLines(rules: seq<Rule>): (lines: seq<string>)
    ensures |lines| == |rules|
    ensures forall k :: 0 <= k < |rules| ==> lines[k] == ToString(rules[k])
  {
    if rules == [] then [] else [ToString(rules[0])] + RuleLines(rules[1..])
  }

  /** The lines Scene.save writes for a scene with this name and content. */
  function SceneLines(name: string, d: SceneData): seq<string> {
    ["Name: " + name, "Description: " + d.description] + RuleLines(d.rules)
  }

  /** The position of the first rule, at or after `from`, that matches the input. */
  function FirstMatchFrom(rules: seq<Rule>, input: string, from: nat): (r: Option<nat>)
    requires from <= |rules|
    ensures r.Some? ==> from <= r.value < |rules| && Matches(rules[r.value], input)
                          && forall j :: from <= j < r.value ==> !Matches(rules[j], input)
    ensures r.None? ==> forall j :: from <= j < |rules| ==> !Matches(rules[j], input)
    decreases |rules| - from
  {
    if from == |rules| then None
    else if Matches(rules[from], input) then Some(from)
    else FirstMatchFrom(rules, input, from + 1)
  }

  /** The actions of the first rule, in list order, that matches the input; None when no rule matches. */
  function FirstActions(rules: seq<Rule>, input: string): (r: Option<seq<Action>>)
    ensures r.None? <==> forall k :: 0 <= k < |rules| ==> !Matches(rules[k], input)
    ensures r.Some? ==> exists k :: 0 <= k < |rules| && Matches(rules[k], input) && r.value == rules[k].actions
                                    && forall j :: 0 <= j < k ==> !Matches(rules[j], input)
  {
    match FirstMatchFrom(rules, input, 0)
    case None => None
    case Some(k) =>
      assert Matches(rules[k], input);
      Some(rules[k].actions)
  }

  class Scene {
    const name: string
    var description: string
    var rules: seq<Rule>

    /** A new scene has no rules. */
    constructor (name: string, description: string)
      ensures this.name == name && this.description == description && rules == []
    {
      this.name := name;
      this.description := description;
      rules := [];
    }

    function Data(): SceneData
      reads this
    {
      SceneData(description, rules)
    }

    /** Replaces the description only. */
    method SetDescription(d: string)
      modifies this
      ensures description == d && rules == old(rules)
    {
      description := d;
    }

    /** Scene.act: the actions of the first matching rule of this scene. */
    function Act(input: string): (r: Option<seq<Action>>)
      reads this
      ensures r == FirstActions(rules, input)
    {
      FirstActions(rules, input)
    }

    /** Scene.save: the name line, the description line, then one line per rule in list order. */
    function Save(): (lines: seq<string>)
      reads this
      ensures |lines| == 2 + |rules|
      ensures lines[0] == "Name: " + name && lines[1] == "Description: " + description
      ensures forall k :: 0 <= k < |rules| ==> lines[2 + k] == ToString(rules[k])
    {
      SceneLines(name, Data())
    }
  }
}
