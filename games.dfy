/** The world of a game (Game): named scenes, the start and current scene, the score and the adventure name. */
module Games {
  import opened Wrappers
  import opened Text
  import opened Errors
  import opened Rules
  import opened Scenes
  import opened Scores
  import opened Codec

  /** What parseGame yields, as values: the world, the current scene's name and the score. */
  datatype GameData = GameData(world: WorldData, current: string, score: Int32)

  /** Game.parseGame: the adventure file, then the state file if there is one, applied to the parsed game. */
  function ParseGameSpec(state: Option<seq<string>>, adventure: seq<string>): (r: Result<GameData, Error>)
    ensures r.Ok? ==> r.value.current in r.value.world.scenes
    ensures ParseWorldSpec(adventure).Err? ==> r == Err(ParseWorldSpec(adventure).error)
    ensures state.None? && ParseWorldSpec(adventure).Ok? ==>
      r == Ok(GameData(ParseWorldSpec(adventure).value, ParseWorldSpec(adventure).value.start, 0))
  {
    match ParseWorldSpec(adventure)
    case Err(e) => Err(e)
    case Ok(w) =>
      var initial := GameData(w, w.start, 0);
      if state.None? then Ok(initial)
      else
        match LoadStateSpec(state.value, w.scenes.Keys)
        case SetState(current, score) => Ok(GameData(w, current, score))
        case KeepState => Ok(initial)
        case StateError(e) => Err(e)
  }

  class Game {
    var scenes: map<string, Scene>
    const score: Score
    var start: Scene
    /** null once the game is over. */
    var current: Scene?
    var adventureName: string

    /**
     * Each scene is filed under its own name, and the start scene and the
     * current scene (when there is one) are the very objects in the map.
     */
    predicate Valid()
      reads this
    {
      (forall k :: k in scenes ==> scenes[k].name == k)
      && start.name in scenes && scenes[start.name] == start
      && (current != null ==> current.name in scenes && scenes[current.name] == current)
    }

    /** The scene objects of the map. */
    function Objects(): set<Scene>
      reads this
    {
      scenes.Values
    }

    /** The content of the world, as values. */
    function World(): (w: WorldData)
      reads this, Objects()
      ensures w.scenes.Keys == scenes.Keys && w.name == adventureName && w.start == start.name
    {
      WorldData(adventureName, start.name, map k | k in scenes :: scenes[k].Data())
    }

    /** A new game holds only its start scene, which is also the current scene, with a score of 0. */
    constructor (start: Scene, adventureName: string)
      ensures Valid()
      ensures scenes == map[start.name := start] && this.start == start && current == start
      ensures score.value == 0 && fresh(score) && this.adventureName == adventureName
    {
      scenes := map[start.name := start];
      score := new Score();
      this.start := start;
      current := start;
      this.adventureName := adventureName;
    }

    /**
     * The private constructor over a ready map: the start scene is added
     * when its name is free, and a different scene under that name is a
     * SceneExists error.
     */
    static method Assemble(start: Scene, world: map<string, Scene>, adventureName: string) returns (r: Result<Game, Error>)
      requires forall k :: k in world ==> world[k].name == k
      ensures start.name in world && world[start.name] != start <==> r.Err?
      ensures r.Err? ==> r.error == SceneExists(start.name)
      ensures r.Ok? ==> (fresh(r.value) && fresh(r.value.score) && r.value.Valid()
        && r.value.scenes == (if start.name in world then world else world[start.name := start])
        && r.value.start == start && r.value.current == start
        && r.value.score.value == 0 && r.value.adventureName == adventureName)
    {
      var g := new Game(start, adventureName);
      if start.name !in world {
        g.scenes := world[start.name := start];
      } else if world[start.name] != start {
        return Err(SceneExists(start.name));
      } else {
        g.scenes := world;
      }
      return Ok(g);
    }

    /** Back to the start scene with a score of 0. */
    method Restart()
      requires Valid()
      modifies this, score
      ensures Valid()
      ensures current == start && score.value == 0
      ensures scenes == old(scenes) && start == old(start) && adventureName == old(adventureName)
    {
      var _ := score.Set(0);
      current := start;
    }

    /** Adds a scene under its name unless the name is taken, which is a SceneExists error and changes nothing. */
    method AddScene(s: Scene) returns (err: Option<Error>)
      requires Valid()
      modifies this
      ensures Valid()
      ensures err.Some? <==> s.name in old(scenes)
      ensures err.Some? ==> err.value == SceneExists(s.name) && scenes == old(scenes)
      ensures err.None? ==> scenes == old(scenes)[s.name := s]
      ensures start == old(start) && current == old(current) && adventureName == old(adventureName)
    {
      if s.name in scenes {
        return Some(SceneExists(s.name));
      }
      scenes := scenes[s.name := s];
      return None;
    }

    /** The scene filed under the name, or null. */
    function GetScene(name: string): (s: Scene?)
      requires Valid()
      reads this
      ensures s != null <==> name in scenes
      ensures s != null ==> s == scenes[name] && s.name == name
    {
      if name in scenes then scenes[name] else null
    }

    /**
     * Moves to the next scene, or to none (the game is over). A scene whose
     * name is not a key is a NoSuchScene error and changes nothing. The check
     * is by name only, so the map's own object keeps the world valid.
     */
    method Move(next: Scene?) returns (err: Option<Error>)
      requires Valid()
      modifies this
      ensures err.Some? <==> next != null && next.name !in scenes
      ensures err.Some? ==> err.value == NoSuchScene(next.name) && current == old(current)
      ensures err.None? ==> current == next
      ensures scenes == old(scenes) && start == old(start) && adventureName == old(adventureName)
      ensures next == null || (next.name in scenes && scenes[next.name] == next) ==> Valid()
    {
      if next != null && next.name !in scenes {
        return Some(NoSuchScene(next.name));
      }
      current := next;
      return None;
    }

    /** Game.saveState: the lines of the state file. */
    function SaveState(): (lines: seq<string>)
      requires Valid() && current != null
      reads this, score
      ensures current.name != "" ==> LoadStateSpec(lines, scenes.Keys) == SetState(current.name, score.value)
    {
      var lines := SaveStateLines(current.name, score.value);
      assert current.name != "" ==> LoadStateSpec(lines, scenes.Keys) == SetState(current.name, score.value) by {
        if current.name != "" { LoadSaveState(current.name, score.value, scenes.Keys); }
      }
      lines
    }

    /** Game.saveWorld, with the map's iteration order as a parameter: the lines of the adventure file. */
    function SaveWorld(order: seq<string>): (lines: seq<string>)
      requires Enumerates(order, scenes)
      reads this, Objects()
      ensures StorableWorld(World()) ==> ParseWorldSpec(lines) == Ok(World())
    {
      var w := World();
      assert Enumerates(order, w.scenes);
      assert StorableWorld(w) ==> ParseWorldSpec(SaveWorldLines(w, order)) == Ok(w) by {
        if StorableWorld(w) { ParseSaveWorld(w, order); }
      }
      SaveWorldLines(w, order)
    }

    /**
     * Game.loadState: sets the current scene and the score from a well-formed
     * state file, reports a malformed line or an unknown scene, and changes
     * nothing on a missing line or a score that is not an int.
     */
    method LoadState(lines: seq<string>) returns (err: Option<Error>)
      requires Valid()
      modifies this, score
      ensures Valid()
      ensures scenes == old(scenes) && start == old(start) && adventureName == old(adventureName)
      ensures World() == old(World())
      ensures match LoadStateSpec(lines, old(scenes).Keys)
        case SetState(c, v) => err.None? && current == scenes[c] && score.value == v
        case KeepState => err.None? && current == old(current) && score.value == old(score.value)
        case StateError(e) => err == Some(e) && current == old(current) && score.value == old(score.value)
    {
      match LoadStateSpec(lines, scenes.Keys)
      case SetState(c, v) =>
        current := scenes[c];
        var _ := score.Set(v);
        return None;
      case KeepState =>
        return None;
      case StateError(e) =>
        return Some(e);
    }

    /**
     * Game.loadGame(Game): clears this map and copies the other game's
     * entries into it. When the other game is this one, the clear empties
     * the very map that is to be copied.
     */
    method LoadGameFrom(other: Game)
      modifies this, score
      ensures other != this ==> scenes == old(other.scenes) && World() == old(other.World())
      ensures other == this ==> scenes == map[]
      ensures current == old(other.current) && start == old(other.start)
      ensures score.value == old(other.score.value) && adventureName == old(other.adventureName)
    {
      var entries := if other == this then map[] else other.scenes;
      var c, s, v, n := other.current, other.start, other.score.value, other.adventureName;
      scenes := entries;
      current := c;
      start := s;
      var _ := score.Set(v);
      adventureName := n;
    }
  
    /**
     * The game parseWorld builds: a fresh scene object for each parsed scene,
     * filed under its name and handed to the private constructor with its
     * start scene, so the current scene is the start and the score is 0.
     */
    static method FromWorld(w: WorldData) returns (g: Game)
      requires w.start in w.scenes
      ensures fresh(g) && fresh(g.score) && g.Valid()
      ensures forall k :: k in g.scenes ==> fresh(g.scenes[k])
      ensures g.World() == w && g.current == g.start && g.score.value == 0
    {
      var objects := BuildScenes(w.scenes);
      var assembled := Assemble(objects[w.start], objects, w.name);
      match assembled
      case Ok(game) =>
        g := game;
        assert g.World().scenes == w.scenes;
    }

    /** One new scene object per entry of the map, with that entry's description and rules. */
    static method BuildScenes(m: map<string, SceneData>) returns (objects: map<string, Scene>)
      ensures objects.Keys == m.Keys
      ensures forall k :: k in objects ==> fresh(objects[k]) && objects[k].name == k && objects[k].Data() == m[k]
    {
      objects := map[];
      var remaining := m.Keys;
      while remaining != {}
        invariant remaining <= m.Keys
        invariant objects.Keys == m.Keys - remaining
        invariant forall k :: k in objects ==> fresh(objects[k]) && objects[k].name == k && objects[k].Data() == m[k]
        decreases |remaining|
      {
        var k :| k in remaining;
        var s := new Scene(k, m[k].description);
        s.rules := m[k].rules;
        objects := objects[k := s];
        remaining := remaining - {k};
      }
    }

    /**
     * Game.parseGame: the game of the adventure file, with the state file
     * applied when there is one.
     */
    static method ParseGame(state: Option<seq<string>>, adventure: seq<string>) returns (r: Result<Game, Error>)
      ensures r.Err? <==> ParseGameSpec(state, adventure).Err?
      ensures r.Err? ==> r.error == ParseGameSpec(state, adventure).error
      ensures r.Ok? ==> (fresh(r.value) && fresh(r.value.score) && r.value.Valid()
        && (forall k :: k in r.value.scenes ==> fresh(r.value.scenes[k]))
        && r.value.current != null
        && GameData(r.value.World(), r.value.current.name, r.value.score.value) == ParseGameSpec(state, adventure).value)
    {
      var w := ParseWorld(adventure);
      if w.Err? {
        return Err(w.error);
      }
      var g := FromWorld(w.value);
      if state.Some? {
        var err := g.LoadState(state.value);
        if err.Some? {
          return Err(err.value);
        }
      }
      return Ok(g);
    }

    /**
     * Game.loadGame(state, adventure): parses first, so a failure leaves this
     * game as it was; otherwise this game takes the parsed world, current
     * scene and score.
     */
    method LoadGame(state: Option<seq<string>>, adventure: seq<string>) returns (err: Option<Error>)
      requires Valid()
      modifies this, score
      ensures err.Some? <==> ParseGameSpec(state, adventure).Err?
      ensures err.Some? ==> (err.value == ParseGameSpec(state, adventure).error
        && scenes == old(scenes) && start == old(start) && current == old(current)
        && score.value == old(score.value) && adventureName == old(adventureName))
      ensures err.None? ==> (Valid() && current != null
        && GameData(World(), current.name, score.value) == ParseGameSpec(state, adventure).value)
    {
      var parsed := ParseGame(state, adventure);
      if parsed.Err? {
        return Some(parsed.error);
      }
      // restart() comes first in the source; every field it sets is then overwritten.
      LoadGameFrom(parsed.value);
      return None;
    }
  }
}
