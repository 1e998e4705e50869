/** The engine's exceptions, folded into one datatype, with the messages their classes produce. */
module Errors {
  import opened Text

  datatype Error =
    | SyntaxError(line: int, problem: string)
    | SceneExists(scene: string)
    | NoSuchScene(scene: string)
    /** A Java runtime exception, carried by its message. */
    | Unchecked(message: string)

  /** getMessage of each exception class. */
  function Message(e: Error): string {
    match e
    case SyntaxError(line, problem) => "Syntax error. Line: " + IntToString(line) + ". Problem: " + problem
    case SceneExists(scene) => scene + " already exists."
    case NoSuchScene(scene) => "No such scene: " + scene
    case Unchecked(message) => message
  }
}
