/**
 * The console input helpers (grow.action.Util) over a sequence of input
 * lines. A read either produces a value and the lines it leaves unread, or
 * ends in a cancellation (the CanceledException) or in an exhausted input
 * (Scanner.nextLine's NoSuchElementException). What a helper prints is
 * returned as a sequence of output lines.
 */
module Util {
  import opened Wrappers
  import opened Text
  import opened Actions
  import opened Rules

  /** The character no input line may contain: it separates the items of a stored rule. */
  const ReservedSeparator: char := '`'
  const CancelWord: string := ":cancel"
  const ReservedMessage: string := "Your input may not contain `."
  const CanceledMessage: string := "Canceled."

  /** How a read ends. */
  datatype Outcome<+T> = Value(value: T, rest: seq<string>) | Canceled(rest: seq<string>) | Exhausted

  /** What read makes of one line: the end of the read, its value, or a message and another line. */
  datatype Verdict<T> = Cancel | Accept(value: T) | Refuse(message: string)

  /**
   * One line of read: the trimmed line ":cancel" cancels; a line with the
   * reserved character, or one the converter turns down, is refused with a
   * message; any other line is converted.
   */
  function Judge<T>(line: string, onError: string, convert: string -> Option<T>): (v: Verdict<T>)
    ensures v == Cancel <==> Trim(line) == CancelWord
    ensures v.Accept? <==> Trim(line) != CancelWord && ReservedSeparator !in Trim(line) && convert(Trim(line)).Some?
    ensures v.Accept? ==> convert(Trim(line)) == Some(v.value)
    ensures v.Refuse? ==> v.message == if ReservedSeparator in Trim(line) then ReservedMessage else onError
  {
    var t := Trim(line);
    if t == CancelWord then Cancel
    else if ReservedSeparator in t then Refuse(ReservedMessage)
    else match convert(t) { case Some(v) => Accept(v) case None => Refuse(onError) }
  }

  /** Without its head, `s` holds its k-th element one place earlier. */
  lemma DropIndex<T>(s: seq<T>, k: nat)
    requires 0 < k < |s|
    ensures s[1..][k - 1] == s[k]
  {
  }

  /** After `a`, `a + b` is `b`. */
  lemma SuffixIndex<T>(a: seq<T>, b: seq<T>, i: nat)
    requires i < |b|
    ensures (a + b)[|a| + i] == b[i]
  {
  }

  /** Within `a`, `a + b` is `a`. */
  lemma PrefixIndex<T>(a: seq<T>, b: seq<T>, i: nat)
    requires i < |a|
    ensures (a + b)[i] == a[i]
  {
  }

  /** Past its head, `[x] + s` is `s`, one place on. */
  lemma ConsIndex<T>(x: T, s: seq<T>, k: nat)
    requires k < |s|
    ensures ([x] + s)[k + 1] == s[k]
  {
  }

  /** The number of lines a read took from `input` before leaving `rest`. */
  function Taken(input: seq<string>, rest: seq<string>): int { |input| - |rest| }

  // ------------------------------------------------------------------ read

  /**
   * The loop of read: lines are refused, each printing its message, until
   * one cancels or is accepted.
   */
  function ReadLoop<T>(input: seq<string>, onError: string, convert: string -> Option<T>): (r: (Outcome<T>, seq<string>))
    ensures r.0.Value? || r.0.Canceled? ==> 0 < Taken(input, r.0.rest) && r.0.rest == input[Taken(input, r.0.rest)..]
  {
    if input == [] then (Exhausted, [])
    else
      match Judge(input[0], onError, convert)
      case Cancel => (Canceled(input[1..]), [])
      case Accept(v) => (Value(v, input[1..]), [])
      case Refuse(m) =>
        var next := ReadLoop(input[1..], onError, convert);
        (next.0, [m] + next.1)
  }

  /** The line a read stops at is the one accepted, or the one that cancels. */
  lemma ReadLoopJudged<T>(input: seq<string>, onError: string, convert: string -> Option<T>)
    ensures var r := ReadLoop(input, onError, convert);
      && (r.0.Value? ==> Judge(input[Taken(input, r.0.rest) - 1], onError, convert) == Accept(r.0.value))
      && (r.0.Canceled? ==> Judge(input[Taken(input, r.0.rest) - 1], onError, convert) == Cancel)
  {
    ReadLoopAccepted(input, onError, convert);
    ReadLoopCanceled(input, onError, convert);
  }

  /** A read that produces a value stops at the line it accepted. */
  lemma {:induction false} ReadLoopAccepted<T>(input: seq<string>, onError: string, convert: string -> Option<T>)
    ensures var r := ReadLoop(input, onError, convert);
      r.0.Value? ==> Judge(input[Taken(input, r.0.rest) - 1], onError, convert) == Accept(r.0.value)
    decreases |input|
  {
    if input != [] {
      if Judge(input[0], onError, convert).Refuse? {
        ReadLoopAccepted(input[1..], onError, convert);
      }
      ReadLoopAcceptedStep(input, onError, convert);
    }
  }

  /** The step of ReadLoopAccepted: a first line that is not refused ends the read, and a refused one passes the claim on. */
  lemma ReadLoopAcceptedStep<T>(input: seq<string>, onError: string, convert: string -> Option<T>)
    requires input != []
    ensures var r := ReadLoop(input, onError, convert); var next := ReadLoop(input[1..], onError, convert);
      (!Judge(input[0], onError, convert).Refuse? || (next.0.Value? ==> Judge(input[1..][Taken(input[1..], next.0.rest) - 1], onError, convert) == Accept(next.0.value)))
      ==> (r.0.Value? ==> Judge(input[Taken(input, r.0.rest) - 1], onError, convert) == Accept(r.0.value))
  {
    var tail := input[1..];
    match Judge(input[0], onError, convert)
    case Cancel =>
    case Accept(v) =>
      assert ReadLoop(input, onError, convert).0 == Value(v, tail);
      assert Taken(input, tail) - 1 == 0;
    case Refuse(m) =>
      ReadLoopRefuse(input, onError, convert, m, tail);
      var next := ReadLoop(tail, onError, convert).0;
      if next.Value? {
        assert input[Taken(input, next.rest) - 1] == tail[Taken(tail, next.rest) - 1];
      }
  }

  /** A canceled read stops at the line that canceled it. */
  lemma {:induction false} ReadLoopCanceled<T>(input: seq<string>, onError: string, convert: string -> Option<T>)
    ensures var r := ReadLoop(input, onError, convert);
      r.0.Canceled? ==> Judge(input[Taken(input, r.0.rest) - 1], onError, convert) == Cancel
    decreases |input|
  {
    if input != [] {
      if Judge(input[0], onError, convert).Refuse? {
        ReadLoopCanceled(input[1..], onError, convert);
      }
      ReadLoopCanceledStep(input, onError, convert);
    }
  }

  /** The step of ReadLoopCanceled. */
  lemma ReadLoopCanceledStep<T>(input: seq<string>, onError: string, convert: string -> Option<T>)
    requires input != []
    ensures var r := ReadLoop(input, onError, convert); var next := ReadLoop(input[1..], onError, convert);
      (!Judge(input[0], onError, convert).Refuse? || (next.0.Canceled? ==> Judge(input[1..][Taken(input[1..], next.0.rest) - 1], onError, convert) == Cancel))
      ==> (r.0.Canceled? ==> Judge(input[Taken(input, r.0.rest) - 1], onError, convert) == Cancel)
  {
    var tail := input[1..];
    match Judge(input[0], onError, convert)
    case Cancel =>
      assert ReadLoop(input, onError, convert).0 == Canceled(tail);
      assert Taken(input, tail) - 1 == 0;
    case Accept(v) =>
    case Refuse(m) =>
      ReadLoopRefuse(input, onError, convert, m, tail);
      var next := ReadLoop(tail, onError, convert).0;
      if next.Canceled? {
        assert input[Taken(input, next.rest) - 1] == tail[Taken(tail, next.rest) - 1];
      }
  }

  /** Every line a read takes before its last is refused, and prints its message; an exhausted read refused every line. */
  lemma {:induction false} ReadLoopRefused<T>(input: seq<string>, onError: string, convert: string -> Option<T>)
    ensures var r := ReadLoop(input, onError, convert);
      |r.1| == (if r.0.Exhausted? then |input| else Taken(input, r.0.rest) - 1)
      && forall k :: 0 <= k < |r.1| ==> Judge(input[k], onError, convert) == Refuse(r.1[k])
    decreases |input|
  {
    if input != [] && Judge(input[0], onError, convert).Refuse? {
      var r := ReadLoop(input, onError, convert);
      var next := ReadLoop(input[1..], onError, convert);
      ReadLoopRefused(input[1..], onError, convert);
      var first := Judge(input[0], onError, convert);
      assert r.0 == next.0 && r.1 == [first.message] + next.1;
      RefusedShift(input, onError, convert, first.message, next.1);
    }
  }

  /** Messages of the lines after a refused first line, with its message in front, are those of the lines from the first. */
  lemma RefusedShift<T>(input: seq<string>, onError: string, convert: string -> Option<T>, m: string, ms: seq<string>)
    requires input != [] && Judge(input[0], onError, convert) == Refuse(m) && |ms| < |input|
    requires forall k :: 0 <= k < |ms| ==> Judge(input[1..][k], onError, convert) == Refuse(ms[k])
    ensures forall k :: 0 <= k < |ms| + 1 ==> Judge(input[k], onError, convert) == Refuse(([m] + ms)[k])
  {
    forall k | 0 <= k < |ms| + 1 ensures Judge(input[k], onError, convert) == Refuse(([m] + ms)[k]) {
      if k > 0 {
        ConsIndex(m, ms, k - 1);
        DropIndex(input, k);
      }
    }
  }

  /** A refused first line prints its message and the read goes on with the next line. */
  lemma ReadLoopRefuse<T>(input: seq<string>, onError: string, convert: string -> Option<T>, message: string, tail: seq<string>)
    requires input != [] && Judge(input[0], onError, convert) == Refuse(message) && tail == input[1..]
    ensures ReadLoop(input, onError, convert).0 == ReadLoop(tail, onError, convert).0
    ensures ReadLoop(input, onError, convert).1 == [message] + ReadLoop(tail, onError, convert).1
  {
  }

  /** The prompt line read prints first, unless the prompt is empty. */
  function PromptLines(prompt: string): (lines: seq<string>)
    ensures prompt == "" <==> lines == []
  {
    if prompt == "" then [] else [prompt]
  }

  /** Util.read: the prompt, then the loop. */
  method Read<T>(input: seq<string>, prompt: string, onError: string, convert: string -> Option<T>)
    returns (r: Outcome<T>, out: seq<string>)
    ensures r == ReadLoop(input, onError, convert).0
    ensures out == PromptLines(prompt) + ReadLoop(input, onError, convert).1
  {
    out := PromptLines(prompt);
    var rest := input;
    while true
      invariant ReadLoop(input, onError, convert).0 == ReadLoop(rest, onError, convert).0
      invariant PromptLines(prompt) + ReadLoop(input, onError, convert).1 == out + ReadLoop(rest, onError, convert).1
      decreases |rest|
    {
      if rest == [] {
        return Exhausted, out;
      }
      var verdict := JudgeLine(rest[0], onError, convert);
      match verdict {
        case Cancel =>
          return Canceled(rest[1..]), out;
        case Accept(v) =>
          return Value(v, rest[1..]), out;
        case Refuse(message) =>
          ReadLoopRefuse(rest, onError, convert, message, rest[1..]);
          out := out + [message];
      }
      rest := rest[1..];
    }
  }

  /** The body of read's loop for one line. */
  method JudgeLine<T>(raw: string, onError: string, convert: string -> Option<T>) returns (verdict: Verdict<T>)
    ensures verdict == Judge(raw, onError, convert)
  {
    var line := Trim(raw);
    if line == CancelWord {
      verdict := Cancel;
    } else if ReservedSeparator in line {
      verdict := Refuse(ReservedMessage);
    } else {
      var converted := convert(line);
      if converted.Some? {
        verdict := Accept(converted.value);
      } else {
        verdict := Refuse(onError);
      }
    }
  }

  /** The identity converter, which accepts every line. */
  function Identity(s: string): Option<string> { Some(s) }

  /** With the identity converter a read refuses only lines with the reserved character, and its value is the trimmed line. */
  lemma ReadIdentity(line: string, onError: string)
    ensures Judge(line, onError, Identity).Refuse? <==> Trim(line) != CancelWord && ReservedSeparator in Trim(line)
    ensures Judge(line, onError, Identity).Accept? ==> Judge(line, onError, Identity).value == Trim(line)
  {
  }

  // ----------------------------------------------------------- readList

  /**
   * readList's converter: a blank line ends the list (the Blank exception,
   * here the value None), other lines go to the caller's converter.
   */
  function BlankEnds<T>(convert: string -> Option<T>): string -> Option<Option<T>> {
    s => if s == "" then Some(None) else match convert(s) { case Some(v) => Some(Some(v)) case None => None }
  }

  /**
   * The loop of readList from the items collected and the lines printed so
   * far: a blank line ends the list when the checker accepts it, and prints
   * onListError otherwise; the prompt is printed only by the first read.
   */
  function ReadListFrom<T>(input: seq<string>, prompt: string, onError: string, convert: string -> Option<T>,
                           onListError: string, checker: seq<T> -> bool, items: seq<T>, printed: seq<string>)
    : (r: (Outcome<seq<T>>, seq<string>))
    ensures r.0.Value? ==> checker(r.0.value)
    ensures r.0.Value? || r.0.Canceled? ==> |r.0.rest| < |input|
    decreases |input|
  {
    var read: (Outcome<Option<T>>, seq<string>) := ReadLoop(input, onError, BlankEnds(convert));
    var out := printed + PromptLines(prompt) + read.1;
    match read.0
    case Exhausted => (Exhausted, out)
    case Canceled(rest) => (Canceled(rest), out)
    case Value(None, rest) =>
      if checker(items) then (Value(items, rest), out)
      else ReadListFrom(rest, "", onError, convert, onListError, checker, items, out + [onListError])
    case Value(Some(v), rest) =>
      ReadListFrom(rest, "", onError, convert, onListError, checker, items + [v], out)
  }

  /** One read of readList's loop and what follows it. */
  lemma ReadListStep<T>(input: seq<string>, prompt: string, onError: string, convert: string -> Option<T>,
                        onListError: string, checker: seq<T> -> bool, items: seq<T>, printed: seq<string>,
                        item: Outcome<Option<T>>, out: seq<string>)
    requires item == ReadLoop(input, onError, BlankEnds(convert)).0
    requires out == printed + PromptLines(prompt) + ReadLoop(input, onError, BlankEnds(convert)).1
    ensures var r := ReadListFrom(input, prompt, onError, convert, onListError, checker, items, printed);
      && (item.Exhausted? ==> r == (Exhausted, out))
      && (item.Canceled? ==> r == (Canceled(item.rest), out))
      && (item.Value? && item.value.None? && checker(items) ==> r == (Value(items, item.rest), out))
      && (item.Value? && item.value.None? && !checker(items) ==>
            r == ReadListFrom(item.rest, "", onError, convert, onListError, checker, items, out + [onListError]))
      && (item.Value? && item.value.Some? ==>
            r == ReadListFrom(item.rest, "", onError, convert, onListError, checker, items + [item.value.value], out))
  {
  }

  /** Util.readList: the items read, in order, up to a blank line that the checker accepts. */
  method ReadList<T>(input: seq<string>, prompt: string, onError: string, convert: string -> Option<T>,
                     onListError: string, checker: seq<T> -> bool) returns (r: Outcome<seq<T>>, out: seq<string>)
    ensures (r, out) == ReadListFrom(input, prompt, onError, convert, onListError, checker, [], [])
  {
    var items: seq<T> := [];
    var rest := input;
    var prompt' := prompt;
    out := [];
    while true
      invariant ReadListFrom(input, prompt, onError, convert, onListError, checker, [], [])
                == ReadListFrom(rest, prompt', onError, convert, onListError, checker, items, out)
      decreases |rest|
    {
      var item, printed := Read(rest, prompt', onError, BlankEnds(convert));
      ReadListStep(rest, prompt', onError, convert, onListError, checker, items, out, item, out + printed);
      match item {
        case Exhausted =>
          return Exhausted, out + printed;
        case Canceled(rest') =>
          return Canceled(rest'), out + printed;
        case Value(None, rest') =>
          if checker(items) {
            return Value(items, rest'), out + printed;
          }
          out := out + printed + [onListError];
          rest := rest';
        case Value(Some(v), rest') =>
          out := out + printed;
          items := items + [v];
          rest := rest';
      }
      prompt' := "";
    }
  }

  /** The head and tail of a sequence with one element in the middle. */
  lemma ListShape<T>(front: seq<T>, middle: T, back: seq<T>)
    ensures front == [] ==> (front + [middle] + back)[0] == middle && (front + [middle] + back)[1..] == back
    ensures front != [] ==> (front + [middle] + back)[0] == front[0] && (front + [middle] + back)[1..] == front[1..] + [middle] + back
    ensures front + [middle] + back == front + ([middle] + back)
  {
  }

  /**
   * Lines that each convert, followed by a blank line, are read as the list
   * of their values, in order, when the checker accepts that list.
   */
  lemma {:induction false} ReadListOfItems<T>(lines: seq<string>, values: seq<T>, blank: string, rest: seq<string>,
                                               prompt: string, onError: string, convert: string -> Option<T>,
                                               onListError: string, checker: seq<T> -> bool, items: seq<T>, printed: seq<string>)
    requires |lines| == |values| && Trim(blank) == ""
    requires forall k :: 0 <= k < |lines| ==> Trim(lines[k]) != "" && Judge(lines[k], onError, convert) == Accept(values[k])
    requires checker(items + values)
    ensures ReadListFrom(lines + [blank] + rest, prompt, onError, convert, onListError, checker, items, printed).0
            == Value(items + values, rest)
  {
    var input := lines + [blank] + rest;
    ListShape(lines, blank, rest);
    if lines == [] {
      assert values == [] && items + values == items;
      ReadListEnds(input, prompt, onError, convert, onListError, checker, items, printed);
    } else {
      BlankEndsAccepts(lines[0], onError, convert, values[0]);
      ReadListAccepts(input, prompt, onError, convert, onListError, checker, items, printed, values[0]);
      ListShape(items, values[0], values[1..]);
      ItemLinesTail(lines, values, onError, convert);
      ReadListOfItems(lines[1..], values[1..], blank, rest, "", onError, convert, onListError, checker, items + [values[0]], printed + PromptLines(prompt));
    }
  }

  /** Dropping the first of the item lines and its value. */
  lemma ItemLinesTail<T>(lines: seq<string>, values: seq<T>, onError: string, convert: string -> Option<T>)
    requires lines != [] && |lines| == |values|
    requires forall k :: 0 <= k < |lines| ==> Trim(lines[k]) != "" && Judge(lines[k], onError, convert) == Accept(values[k])
    ensures values == [values[0]] + values[1..]
    ensures forall k :: 0 <= k < |lines[1..]| ==> Trim(lines[1..][k]) != "" && Judge(lines[1..][k], onError, convert) == Accept(values[1..][k])
  {
    forall k | 0 <= k < |lines[1..]|
      ensures Trim(lines[1..][k]) != "" && Judge(lines[1..][k], onError, convert) == Accept(values[1..][k])
    {
      assert lines[1..][k] == lines[k + 1] && values[1..][k] == values[k + 1];
    }
  }

  /** A line that converts is, for readList, an item. */
  lemma BlankEndsAccepts<T>(line: string, onError: string, convert: string -> Option<T>, v: T)
    requires Trim(line) != "" && Judge(line, onError, convert) == Accept(v)
    ensures Judge(line, onError, BlankEnds(convert)) == Accept(Some(v))
  {
  }

  /** A first line that is an item is appended and the list goes on. */
  lemma ReadListAccepts<T>(input: seq<string>, prompt: string, onError: string, convert: string -> Option<T>,
                           onListError: string, checker: seq<T> -> bool, items: seq<T>, printed: seq<string>, v: T)
    requires input != [] && Judge(input[0], onError, BlankEnds(convert)) == Accept(Some(v))
    ensures ReadListFrom(input, prompt, onError, convert, onListError, checker, items, printed)
            == ReadListFrom(input[1..], "", onError, convert, onListError, checker, items + [v], printed + PromptLines(prompt))
  {
    var read := ReadLoop(input, onError, BlankEnds(convert));
    assert read == (Value(Some(v), input[1..]), []);
    assert printed + PromptLines(prompt) + read.1 == printed + PromptLines(prompt);
    ReadListStep(input, prompt, onError, convert, onListError, checker, items, printed, read.0, printed + PromptLines(prompt));
  }

  /** A blank first line ends a list the checker accepts. */
  lemma ReadListEnds<T>(input: seq<string>, prompt: string, onError: string, convert: string -> Option<T>,
                        onListError: string, checker: seq<T> -> bool, items: seq<T>, printed: seq<string>)
    requires input != [] && Trim(input[0]) == "" && checker(items)
    ensures ReadListFrom(input, prompt, onError, convert, onListError, checker, items, printed)
            == (Value(items, input[1..]), printed + PromptLines(prompt))
  {
    assert Judge(input[0], onError, BlankEnds(convert)) == Accept(None);
    var read := ReadLoop(input, onError, BlankEnds(convert));
    assert read == (Value(None, input[1..]), []);
    assert printed + PromptLines(prompt) + read.1 == printed + PromptLines(prompt);
    ReadListStep(input, prompt, onError, convert, onListError, checker, items, printed, read.0, printed + PromptLines(prompt));
  }

  // ------------------------------------------------------------- readInt

  /** readInt's converter: an int in [min, max], or nothing. */
  function InRange(min: int, max: int): string -> Option<int> {
    s => match ParseInt(s) { case Some(i) => if min <= i <= max then Some(i) else None case None => None }
  }

  /** Util.readInt: the first line that parses to an int in [min, max]. */
  method ReadInt(input: seq<string>, prompt: string, onError: string, min: int, max: int)
    returns (r: Outcome<int>, out: seq<string>)
    ensures r == ReadLoop(input, onError, InRange(min, max)).0
    ensures out == PromptLines(prompt) + ReadLoop(input, onError, InRange(min, max)).1
    ensures r.Value? ==> min <= r.value <= max && IsInt32(r.value)
  {
    r, out := Read(input, prompt, onError, InRange(min, max));
    ReadLoopJudged(input, onError, InRange(min, max));
  }

  /** An empty range, such as the rule numbers of a scene with no rules, accepts no line: the read can only be cancelled or run out of input. */
  lemma {:induction false} EmptyRangeNeverReads(input: seq<string>, onError: string, min: int, max: int)
    requires max < min
    ensures !ReadLoop(input, onError, InRange(min, max)).0.Value?
  {
    ReadLoopJudged(input, onError, InRange(min, max));
  }

  // ------------------------------------------------------------ readInts

  /** Integer.parseInt of every token, or nothing when one of them fails. */
  function ParseAll(tokens: seq<string>): (r: Option<seq<int>>)
    ensures r.Some? <==> forall k :: 0 <= k < |tokens| ==> ParseInt(tokens[k]).Some?
    ensures r.Some? ==> |r.value| == |tokens| && forall k :: 0 <= k < |tokens| ==> Some(r.value[k]) == ParseInt(tokens[k])
  {
    if tokens == [] then Some([])
    else
      match (ParseInt(tokens[0]), ParseAll(tokens[1..]))
      case (Some(i), Some(more)) => Some([i] + more)
      case _ => None
  }

  /** The for loop of readInts over the tokens of one line; it stops at the first token that is not an int. */
  method ParseTokens(tokens: seq<string>) returns (r: Option<seq<int>>)
    ensures r == ParseAll(tokens)
  {
    var values: seq<int> := [];
    var k := 0;
    while k < |tokens|
      invariant 0 <= k <= |tokens| && |values| == k
      invariant forall j :: 0 <= j < k ==> Some(values[j]) == ParseInt(tokens[j])
    {
      var i := ParseInt(tokens[k]);
      if i.None? {
        return None;
      }
      values := values + [i.value];
      k := k + 1;
    }
    assert ParseAll(tokens).Some?;
    assert ParseAll(tokens).value == values;
    return Some(values);
  }

  /** The ints of one line: none for a blank line, else parseInt of each \\s-separated token. */
  function LineInts(line: string): Option<seq<int>> {
    if line == "" then Some([]) else ParseAll(JavaSplitChars(line, Whitespace))
  }

  /**
   * The loop of readInts from the lines printed so far: a line read with the
   * identity converter whose ints all parse and satisfy the checker is the
   * result; any other line prints onError once and the next line is read.
   */
  function ReadIntsLoop(input: seq<string>, onError: string, checker: seq<int> -> bool, printed: seq<string>)
    : (r: (Outcome<seq<int>>, seq<string>))
    ensures r.0.Value? ==> checker(r.0.value)
    ensures r.0.Value? || r.0.Canceled? ==> |r.0.rest| < |input|
    decreases |input|
  {
    var read := ReadLoop(input, onError, Identity);
    var out := printed + read.1;
    match read.0
    case Exhausted => (Exhausted, out)
    case Canceled(rest) => (Canceled(rest), out)
    case Value(line, rest) =>
      if LineInts(line).Some? && checker(LineInts(line).value) then (Value(LineInts(line).value, rest), out)
      else ReadIntsLoop(rest, onError, checker, out + [onError])
  }

  /** One read of readInts' loop and what follows it. */
  lemma ReadIntsStep(input: seq<string>, onError: string, checker: seq<int> -> bool, printed: seq<string>,
                     item: Outcome<string>, out: seq<string>)
    requires item == ReadLoop(input, onError, Identity).0
    requires out == printed + ReadLoop(input, onError, Identity).1
    ensures item.Exhausted? ==> ReadIntsLoop(input, onError, checker, printed) == (Exhausted, out)
    ensures item.Canceled? ==> ReadIntsLoop(input, onError, checker, printed) == (Canceled(item.rest), out)
    ensures item.Value? && LineInts(item.value).Some? && checker(LineInts(item.value).value) ==>
      ReadIntsLoop(input, onError, checker, printed) == (Value(LineInts(item.value).value, item.rest), out)
    ensures item.Value? && !(LineInts(item.value).Some? && checker(LineInts(item.value).value)) ==>
      ReadIntsLoop(input, onError, checker, printed) == ReadIntsLoop(item.rest, onError, checker, out + [onError])
  {
  }

  /** Util.readInts with a checker. */
  method ReadInts(input: seq<string>, onError: string, checker: seq<int> -> bool) returns (r: Outcome<seq<int>>, out: seq<string>)
    ensures (r, out) == ReadIntsLoop(input, onError, checker, [])
  {
    var rest := input;
    out := [];
    var done := false;
    r := Exhausted;
    while !done
      invariant !done ==> ReadIntsLoop(input, onError, checker, []) == ReadIntsLoop(rest, onError, checker, out)
      invariant done ==> ReadIntsLoop(input, onError, checker, []) == (r, out)
      decreases !done, |rest|
    {
      done, r, out, rest := ReadIntsOnce(rest, onError, checker, out);
    }
  }

  /** One pass of readInts' loop: a line is read and either gives the result or prints onError. */
  method ReadIntsOnce(rest: seq<string>, onError: string, checker: seq<int> -> bool, printed: seq<string>)
    returns (done: bool, r: Outcome<seq<int>>, out: seq<string>, rest': seq<string>)
    ensures done ==> ReadIntsLoop(rest, onError, checker, printed) == (r, out)
    ensures !done ==> (ReadIntsLoop(rest, onError, checker, printed) == ReadIntsLoop(rest', onError, checker, out)
      && |rest'| < |rest|)
  {
    var line, lines := Read(rest, "", onError, Identity);
    assert lines == ReadLoop(rest, onError, Identity).1;
    out := printed + lines;
    ReadIntsStep(rest, onError, checker, printed, line, out);
    done, r, rest' := true, Exhausted, rest;
    match line {
      case Exhausted =>
      case Canceled(tail) => r := Canceled(tail);
      case Value(text, tail) =>
        var ints := IntsOfLine(text);
        if ints.Some? && checker(ints.value) {
          r := Value(ints.value, tail);
        } else {
          done, out, rest' := false, out + [onError], tail;
        }
    }
  }

  /** The ints of one line read by readInts: a blank line has none, else its tokens are parsed. */
  method IntsOfLine(text: string) returns (ints: Option<seq<int>>)
    ensures ints == LineInts(text)
  {
    if text == "" {
      ints := Some([]);
    } else {
      ints := ParseTokens(JavaSplitChars(text, Whitespace));
    }
  }

  /** No int occurs twice. */
  predicate NoDuplicates(xs: seq<int>) {
    forall i, j :: 0 <= i < j < |xs| ==> xs[i] != xs[j]
  }

  /** The set of the ints of a list. */
  function Elements(l: seq<int>): (s: set<int>)
    ensures forall x :: x in s <==> x in l
    ensures |s| <= |l|
  {
    if l == [] then {} else {l[0]} + Elements(l[1..])
  }

  /** The loop of intListMinMax: None at the first int out of range, else the set of ints seen. */
  function MinMaxScan(l: seq<int>, min: int, max: int, seen: set<int>): (r: Option<set<int>>)
    ensures r.Some? <==> forall k :: 0 <= k < |l| ==> min <= l[k] <= max
    decreases |l|
  {
    if l == [] then Some(seen)
    else if l[0] < min || l[0] > max then None
    else MinMaxScan(l[1..], min, max, seen + {l[0]})
  }

  /** intListMinMax: every int is in range and the set of them is as large as the list. */
  function IntListMinMax(min: int, max: int, l: seq<int>): (ok: bool)
    ensures ok <==> (forall k :: 0 <= k < |l| ==> min <= l[k] <= max) && NoDuplicates(l)
  {
    match MinMaxScan(l, min, max, {})
    case None => false
    case Some(seen) =>
      MinMaxScanSet(l, min, max, {});
      assert {} + Elements(l) == Elements(l);
      ElementCount(l);
      |seen| == |l|
  }

  /** The scan collects exactly the ints of the list. */
  lemma {:induction false} MinMaxScanSet(l: seq<int>, min: int, max: int, seen: set<int>)
    requires MinMaxScan(l, min, max, seen).Some?
    ensures MinMaxScan(l, min, max, seen).value == seen + Elements(l)
    decreases |l|
  {
    if l != [] {
      MinMaxScanSet(l[1..], min, max, seen + {l[0]});
    }
  }

  /** A list has as many distinct elements as entries exactly when it has no duplicates. */
  lemma {:induction false} ElementCount(l: seq<int>)
    ensures |Elements(l)| == |l| <==> NoDuplicates(l)
    decreases |l|
  {
    if l != [] {
      var tail := l[1..];
      ElementCount(tail);
      NoDuplicatesCons(l);
      if l[0] in tail {
        assert Elements(l) == Elements(tail);
      } else {
        assert |Elements(l)| == |Elements(tail)| + 1;
      }
    }
  }

  /** A list has no duplicates when its head is not in its tail and its tail has none. */
  lemma NoDuplicatesCons(l: seq<int>)
    requires l != []
    ensures NoDuplicates(l) <==> l[0] !in l[1..] && NoDuplicates(l[1..])
  {
    var tail := l[1..];
    if l[0] in tail {
      var k :| 0 <= k < |tail| && tail[k] == l[0];
      assert l[k + 1] == l[0];
    } else if NoDuplicates(tail) {
      forall i, j | 0 <= i < j < |l| ensures l[i] != l[j] {
        if i == 0 { assert l[j] == tail[j - 1]; } else { assert l[i] == tail[i - 1] && l[j] == tail[j - 1]; }
      }
    }
    if NoDuplicates(l) {
      forall i, j | 0 <= i < j < |tail| ensures tail[i] != tail[j] {
        assert tail[i] == l[i + 1] && tail[j] == l[j + 1];
      }
    }
  }

  /** The checker of readInts(min, max, minCount, maxCount). */
  function Counted(min: int, max: int, minCount: int, maxCount: int): seq<int> -> bool {
    l => IntListMinMax(min, max, l) && minCount <= |l| <= maxCount
  }

  /**
   * readInts(min, max, minCount, maxCount): distinct ints in [min, max], as
   * many as the counts allow. The (min, max, count) overload is the case
   * minCount == maxCount == count.
   */
  method ReadIntsCounted(input: seq<string>, onError: string, min: int, max: int, minCount: int, maxCount: int)
    returns (r: Outcome<seq<int>>, out: seq<string>)
    ensures (r, out) == ReadIntsLoop(input, onError, Counted(min, max, minCount, maxCount), [])
    ensures r.Value? ==> (forall k :: 0 <= k < |r.value| ==> min <= r.value[k] <= max)
                         && NoDuplicates(r.value) && minCount <= |r.value| <= maxCount
  {
    r, out := ReadInts(input, onError, Counted(min, max, minCount, maxCount));
  }

  /** The checker of readInts(min, max). */
  function MinMax(min: int, max: int): seq<int> -> bool {
    l => IntListMinMax(min, max, l)
  }

  /** readInts(min, max): distinct ints in [min, max], any number of them. */
  method ReadIntsInRange(input: seq<string>, onError: string, min: int, max: int)
    returns (r: Outcome<seq<int>>, out: seq<string>)
    ensures (r, out) == ReadIntsLoop(input, onError, MinMax(min, max), [])
    ensures r.Value? ==> (forall k :: 0 <= k < |r.value| ==> min <= r.value[k] <= max) && NoDuplicates(r.value)
  {
    r, out := ReadInts(input, onError, MinMax(min, max));
  }

  /** A blank first line gives the empty list whenever the checker accepts it. */
  lemma ReadIntsBlankLine(input: seq<string>, onError: string, checker: seq<int> -> bool)
    requires input != [] && Trim(input[0]) == "" && checker([])
    ensures ReadIntsLoop(input, onError, checker, []) == (Value([], input[1..]), [])
  {
    var read := ReadLoop(input, onError, Identity);
    assert Judge(input[0], onError, Identity) == Accept("");
    assert read == (Value("", input[1..]), []);
    assert LineInts("") == Some([]);
    ReadIntsStep(input, onError, checker, [], read.0, []);
  }

  /** The ints 1..n. */
  function Range(n: nat): (s: set<int>)
    ensures forall i :: i in s <==> 1 <= i <= n
    ensures |s| == n
  {
    if n == 0 then {} else Range(n - 1) + {n}
  }

  /**
   * n distinct ints in [1, n] are a permutation of 1..n: every position of
   * an n-entry sequence is named.
   */
  lemma DistinctInRangeCoversAll(l: seq<int>, n: nat)
    requires |l| == n && NoDuplicates(l)
    requires forall k :: 0 <= k < |l| ==> 1 <= l[k] <= n
    ensures forall i :: 1 <= i <= n ==> i in l
  {
    ElementCount(l);
    forall i | 1 <= i <= n ensures i in l {
      if i !in l {
        SubsetSize(Elements(l), Range(n) - {i});
      }
    }
  }

  /** A subset is no larger than its superset. */
  lemma SubsetSize(a: set<int>, b: set<int>)
    requires a <= b
    ensures |a| <= |b|
  {
    assert b == a + (b - a);
    assert a * (b - a) == {};
  }

  // ----------------------------------------------------- cancel and rules

  /** Util.handleCancel: a cancelled task prints "Canceled." and yields the current scene. */
  function HandleCancel<T>(current: T, task: Outcome<T>): (r: (Outcome<T>, seq<string>))
    ensures task.Canceled? ==> r == (Value(current, task.rest), [CanceledMessage])
    ensures !task.Canceled? ==> r == (task, [])
  {
    match task
    case Canceled(rest) => (Value(current, rest), [CanceledMessage])
    case _ => (task, [])
  }

  /** A numbered entry of printNumberedList with no indent and a number column of five: the label padded, a space, the text. */
  function NumberedLine(number: nat, indent: nat, text: string): string {
    Spaces(indent) + PadRight(IntToString(number) + ".", 5) + " " + text
  }

  /** A numbered line is the indent, the label padded to five, a space, and then the text as it stands. */
  lemma NumberedLineShape(number: nat, indent: nat, text: string)
    ensures var line := NumberedLine(number, indent, text);
      && StartsWith(line, Spaces(indent) + PadRight(IntToString(number) + ".", 5) + " ")
      && EndsWith(line, text)
      && |line| == indent + (if |IntToString(number)| + 1 < 5 then 5 else |IntToString(number)| + 1) + 1 + |text|
  {
    var head := Spaces(indent) + PadRight(IntToString(number) + ".", 5) + " ";
    assert NumberedLine(number, indent, text) == head + text;
    assert (head + text)[..|head|] == head;
    assert (head + text)[|head|..] == text;
  }

  /** A continuation line of an entry: the number column left blank. */
  function ContinuedLine(indent: nat, text: string): string {
    Spaces(indent) + Spaces(5) + " " + text
  }

  /** One entry of printNumberedList, given as its lines: the first numbered, the others under it. */
  function NumberedEntry(number: nat, indent: nat, lines: seq<string>): (r: seq<string>)
    ensures |r| == |lines|
    ensures lines != [] ==> r[0] == NumberedLine(number, indent, lines[0])
    ensures forall k :: 1 <= k < |lines| ==> r[k] == ContinuedLine(indent, lines[k])
  {
    if lines == [] then []
    else [NumberedLine(number, indent, lines[0])] + Continued(indent, lines[1..])
  }

  function Continued(indent: nat, lines: seq<string>): (r: seq<string>)
    ensures |r| == |lines| && forall k :: 0 <= k < |lines| ==> r[k] == ContinuedLine(indent, lines[k])
  {
    if lines == [] then [] else [ContinuedLine(indent, lines[0])] + Continued(indent, lines[1..])
  }

  /** The number of lines in all the entries together. */
  function LineCount<T>(blocks: seq<seq<T>>): nat {
    if blocks == [] then 0 else |blocks[0]| + LineCount(blocks[1..])
  }

  /** The blocks one after the other. */
  function Flatten<T>(blocks: seq<seq<T>>): (r: seq<T>)
    ensures |r| == LineCount(blocks)
  {
    if blocks == [] then [] else blocks[0] + Flatten(blocks[1..])
  }

  /** The lines before the k-th block are the first block's and those before the k-th of the others. */
  lemma LineCountStep<T>(blocks: seq<seq<T>>, k: nat)
    requires 0 < k <= |blocks|
    ensures LineCount(blocks[..k]) == |blocks[0]| + LineCount(blocks[1..][..k - 1])
  {
    assert blocks[..k][1..] == blocks[1..][..k - 1];
  }

  /** Line i of block k stands in the flattened blocks after the lines of the blocks before it. */
  lemma {:induction false} FlattenAt<T>(blocks: seq<seq<T>>, k: nat, i: nat)
    requires k < |blocks| && i < |blocks[k]|
    ensures LineCount(blocks[..k]) + i < |Flatten(blocks)|
    ensures Flatten(blocks)[LineCount(blocks[..k]) + i] == blocks[k][i]
    decreases k
  {
    if k == 0 {
      assert blocks[..k] == [];
    } else {
      FlattenAt(blocks[1..], k - 1, i);
      LineCountStep(blocks, k);
      assert blocks[1..][k - 1] == blocks[k];
    }
  }

  /** Blocks of the same sizes hold the same number of lines. */
  lemma {:induction false} SameLineCount<S, T>(a: seq<seq<S>>, b: seq<seq<T>>)
    requires |a| == |b| && forall k :: 0 <= k < |a| ==> |a[k]| == |b[k]|
    ensures LineCount(a) == LineCount(b)
    decreases |a|
  {
    if a != [] {
      assert forall k :: 0 <= k < |a| - 1 ==> a[1..][k] == a[k + 1] && b[1..][k] == b[k + 1];
      SameLineCount(a[1..], b[1..]);
    }
  }

  /** Blocks of one line each hold one line apiece. */
  lemma {:induction false} LineCountSingles<T>(blocks: seq<seq<T>>)
    requires forall k :: 0 <= k < |blocks| ==> |blocks[k]| == 1
    ensures LineCount(blocks) == |blocks|
    decreases |blocks|
  {
    if blocks != [] {
      assert forall k :: 0 <= k < |blocks| - 1 ==> blocks[1..][k] == blocks[k + 1];
      LineCountSingles(blocks[1..]);
    }
  }

  /** The entries as printed, one block of lines each, numbered from `first`. */
  function NumberedBlocks(first: nat, indent: nat, entries: seq<seq<string>>): (blocks: seq<seq<string>>)
    ensures |blocks| == |entries| && forall k {:trigger blocks[k]} :: 0 <= k < |entries| ==> blocks[k] == NumberedEntry(first + k, indent, entries[k])
  {
    seq(|entries|, k requires 0 <= k < |entries| => NumberedEntry(first + k, indent, entries[k]))
  }

  /** Util.printNumberedList, numbering from `first`, each entry given as its lines: every line of every entry is printed once. */
  function NumberedList(first: nat, indent: nat, entries: seq<seq<string>>): (r: seq<string>)
    ensures |r| == LineCount(entries)
  {
    var blocks := NumberedBlocks(first, indent, entries);
    SameLineCount(blocks, entries);
    Flatten(blocks)
  }

  /**
   * The k-th entry's lines follow the lines of the entries before it, as
   * NumberedEntry prints them with the number first + k.
   */
  lemma NumberedListEntry(first: nat, indent: nat, entries: seq<seq<string>>, k: nat, i: nat)
    requires k < |entries| && i < |entries[k]|
    ensures LineCount(entries[..k]) + i < |NumberedList(first, indent, entries)|
    ensures NumberedList(first, indent, entries)[LineCount(entries[..k]) + i] == NumberedEntry(first + k, indent, entries[k])[i]
  {
    var blocks := NumberedBlocks(first, indent, entries);
    FlattenAt(blocks, k, i);
    NumberedBlocksBefore(first, indent, entries, k);
    assert blocks[k] == NumberedEntry(first + k, indent, entries[k]);
  }

  /** The printed blocks before the k-th hold as many lines as the entries before it. */
  lemma NumberedBlocksBefore(first: nat, indent: nat, entries: seq<seq<string>>, k: nat)
    requires k <= |entries|
    ensures LineCount(NumberedBlocks(first, indent, entries)[..k]) == LineCount(entries[..k])
  {
    var blocks := NumberedBlocks(first, indent, entries);
    assert forall j :: 0 <= j < k ==> blocks[..k][j] == blocks[j] && entries[..k][j] == entries[j];
    SameLineCount(blocks[..k], entries[..k]);
  }

  /** Entries of one line each are printed one numbered line apiece, counting up from `first`. */
  lemma NumberedSingles(first: nat, indent: nat, entries: seq<seq<string>>)
    requires forall k :: 0 <= k < |entries| ==> |entries[k]| == 1
    ensures var r := NumberedList(first, indent, entries);
      |r| == |entries| && forall k :: 0 <= k < |entries| ==> r[k] == NumberedLine(first + k, indent, entries[k][0])
  {
    LineCountSingles(entries);
    forall k | 0 <= k < |entries| ensures NumberedList(first, indent, entries)[k] == NumberedLine(first + k, indent, entries[k][0]) {
      NumberedListEntry(first, indent, entries, k, 0);
      LineCountSingles(entries[..k]);
      assert NumberedEntry(first + k, indent, entries[k])[0] == NumberedLine(first + k, indent, entries[k][0]);
    }
  }

  /** The entries of a list of single-line items. */
  function SingleLines(items: seq<string>): (r: seq<seq<string>>)
    ensures |r| == |items| && forall k :: 0 <= k < |items| ==> r[k] == [items[k]]
  {
    if items == [] then [] else [[items[0]]] + SingleLines(items[1..])
  }

  /** firstOrNone: the first element's text, or "[none]". */
  function FirstOrNone(items: seq<string>): (s: string)
    ensures items == [] <==> s == "[none]" && "[none]" !in items
    ensures items != [] ==> s == items[0]
  {
    if items == [] then "[none]" else items[0]
  }

  /**
   * Util.prettyRule, as its lines: one "Pattern:" line for at most one
   * pattern, else a "Patterns:" heading over a numbered list indented by
   * two, and the same for the actions.
   */
  function PrettyRule(r: Rule): (lines: seq<string>)
    ensures |r.patterns| <= 1 && |r.actions| <= 1 ==>
      lines == ["Pattern: " + FirstOrNone(r.patterns), "Action:  " + FirstOrNone(Commands(r.actions))]
  {
    PatternSection(r) + ActionSection(r)
  }

  /** The pattern lines of prettyRule: one line, or a heading and one line per pattern. */
  function PatternSection(r: Rule): (lines: seq<string>)
    ensures |lines| == if |r.patterns| <= 1 then 1 else 1 + |r.patterns|
  {
    if |r.patterns| <= 1 then ["Pattern: " + FirstOrNone(r.patterns)]
    else
      LineCountSingles(SingleLines(r.patterns));
      ["Patterns:"] + NumberedList(1, 2, SingleLines(r.patterns))
  }

  /** The action lines of prettyRule: one line, or a heading and one line per action. */
  function ActionSection(r: Rule): (lines: seq<string>)
    ensures |lines| == if |r.actions| <= 1 then 1 else 1 + |r.actions|
  {
    if |r.actions| <= 1 then ["Action:  " + FirstOrNone(Commands(r.actions))]
    else
      LineCountSingles(SingleLines(Commands(r.actions)));
      ["Actions:"] + NumberedList(1, 2, SingleLines(Commands(r.actions)))
  }

  /** A rule with several patterns shows them under a "Patterns:" heading, numbered from 1 and indented by two. */
  lemma PrettyRulePatterns(r: Rule)
    requires |r.patterns| > 1
    ensures var lines := PrettyRule(r);
      |lines| >= 1 + |r.patterns| && lines[0] == "Patterns:"
      && forall k :: 0 <= k < |r.patterns| ==> lines[1 + k] == NumberedLine(k + 1, 2, r.patterns[k])
  {
    var singles := SingleLines(r.patterns);
    NumberedSingles(1, 2, singles);
    var numbered := NumberedList(1, 2, singles);
    assert PatternSection(r) == ["Patterns:"] + numbered;
    forall k | 0 <= k < |r.patterns| ensures PrettyRule(r)[1 + k] == NumberedLine(k + 1, 2, r.patterns[k]) {
      PrefixIndex(PatternSection(r), ActionSection(r), 1 + k);
      ConsIndex("Patterns:", numbered, k);
      assert singles[k] == [r.patterns[k]];
    }
  }

  /** A rule with several actions shows their command strings under an "Actions:" heading after the pattern lines, numbered from 1 and indented by two. */
  lemma PrettyRuleActions(r: Rule)
    requires |r.actions| > 1
    ensures var lines := PrettyRule(r);
      var h := if |r.patterns| <= 1 then 1 else 1 + |r.patterns|;
      |lines| == h + 1 + |r.actions| && lines[h] == "Actions:"
      && forall k :: 0 <= k < |r.actions| ==> lines[h + 1 + k] == NumberedLine(k + 1, 2, CommandString(r.actions[k]))
  {
    var singles := SingleLines(Commands(r.actions));
    NumberedSingles(1, 2, singles);
    var numbered := NumberedList(1, 2, singles);
    var patterns := PatternSection(r);
    assert ActionSection(r) == ["Actions:"] + numbered;
    SuffixIndex(patterns, ActionSection(r), 0);
    forall k | 0 <= k < |r.actions| ensures PrettyRule(r)[|patterns| + 1 + k] == NumberedLine(k + 1, 2, CommandString(r.actions[k])) {
      SuffixIndex(patterns, ActionSection(r), 1 + k);
      ConsIndex("Actions:", numbered, k);
      assert singles[k] == [CommandString(r.actions[k])];
    }
  }

  /** The rules of a scene, each as the lines of its pretty form. */
  function PrettyRules(rules: seq<Rule>): (r: seq<seq<string>>)
    ensures |r| == |rules| && forall k :: 0 <= k < |rules| ==> r[k] == PrettyRule(rules[k])
  {
    if rules == [] then [] else [PrettyRule(rules[0])] + PrettyRules(rules[1..])
  }

  /** A rule number read in [1, n] as the 0-based index of the rule. */
  function RuleIndex(number: Outcome<int>): (r: Outcome<int>)
    ensures r.Value? <==> number.Value?
    ensures r.Value? ==> r.value == number.value - 1 && r.rest == number.rest
    ensures !r.Value? ==> r == number
  {
    match number
    case Value(n, rest) => Value(n - 1, rest)
    case _ => number
  }

  /** The rule index getRuleNumber reads for a scene with `count` rules: a number in [1, count], less one. */
  function RuleNumber(count: nat, input: seq<string>): (r: Outcome<int>)
    ensures r == RuleIndex(ReadLoop(input, "Not a valid rule number.", InRange(1, count)).0)
    ensures r.Value? ==> 0 <= r.value < count
  {
    ReadLoopJudged(input, "Not a valid rule number.", InRange(1, count));
    RuleIndex(ReadLoop(input, "Not a valid rule number.", InRange(1, count)).0)
  }

  /** The checker of a readList that accepts any list. */
  function AnyList<T>(): seq<T> -> bool { l => true }

  /**
   * Util.getRuleNumber: the prompt, the numbered rules, then a rule number
   * read in [1, n], returned as the 0-based index.
   */
  method GetRuleNumber(prompt: string, rules: seq<Rule>, input: seq<string>) returns (r: Outcome<int>, out: seq<string>)
    ensures r == RuleNumber(|rules|, input)
    ensures out == [prompt] + NumberedList(1, 0, PrettyRules(rules)) + ReadLoop(input, "Not a valid rule number.", InRange(1, |rules|)).1
    ensures r.Value? ==> 0 <= r.value < |rules|
  {
    var number, printed := ReadInt(input, "", "Not a valid rule number.", 1, |rules|);
    out := [prompt] + NumberedList(1, 0, PrettyRules(rules)) + printed;
    r := RuleIndex(number);
  }
}
