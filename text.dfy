/**
 * The string operations of the Java library that the engine relies on:
 * String.trim, toUpperCase, startsWith/endsWith, String.join, String.split
 * (with a literal or a one-character separator and Java's removal of trailing
 * empty pieces), Integer.parseInt and Integer.toString, and the left-justified
 * padding of printf's "%-Ns".
 */
module Text {
  import opened Wrappers

  predicate StartsWith(s: string, prefix: string) {
    |prefix| <= |s| && s[..|prefix|] == prefix
  }

  predicate EndsWith(s: string, suffix: string) {
    |suffix| <= |s| && s[|s| - |suffix|..] == suffix
  }

  /** The characters String.trim removes: every code point up to the space. */
  predicate IsTrimmed(c: char) { c <= ' ' }

  /** The number of trimmed characters at the start of s. */
  function LeadingTrimmed(s: string): (n: nat)
    ensures n <= |s|
    ensures forall k :: 0 <= k < n ==> IsTrimmed(s[k])
    ensures n < |s| ==> !IsTrimmed(s[n])
  {
    if s != [] && IsTrimmed(s[0]) then 1 + LeadingTrimmed(s[1..]) else 0
  }

  /** The position after the last character of s that is not trimmed (0 when there is none). */
  function VisibleEnd(s: string): (n: nat)
    ensures n <= |s|
    ensures forall k :: n <= k < |s| ==> IsTrimmed(s[k])
    ensures n > 0 ==> !IsTrimmed(s[n - 1])
  {
    if s != [] && IsTrimmed(s[|s| - 1]) then VisibleEnd(s[..|s| - 1]) else |s|
  }

  /** String.trim: the part of s between its leading and trailing control characters and spaces. */
  function Trim(s: string): (r: string)
    ensures exists i, j :: 0 <= i <= j <= |s| && r == s[i..j]
              && (forall k :: 0 <= k < i ==> IsTrimmed(s[k]))
              && (forall k :: j <= k < |s| ==> IsTrimmed(s[k]))
    ensures r != [] ==> !IsTrimmed(r[0]) && !IsTrimmed(r[|r| - 1])
  {
    var i := LeadingTrimmed(s);
    var j := VisibleEnd(s);
    if i < j then s[i..j]
    else
      assert s[i..i] == "";
      ""
  }

  /** Trimming text that starts and ends with a visible character changes nothing. */
  lemma TrimVisible(s: string)
    requires s != [] && !IsTrimmed(s[0]) && !IsTrimmed(s[|s| - 1])
    ensures Trim(s) == s
  {
  }

  /** Trimming removes one trailing space after visible text. */
  lemma TrimTrailingSpace(s: string)
    requires s != [] && !IsTrimmed(s[0]) && !IsTrimmed(s[|s| - 1])
    ensures Trim(s + " ") == s
  {
    var t := s + " ";
    assert t[..|t| - 1] == s;
    assert LeadingTrimmed(t) == 0;
    assert VisibleEnd(t) == VisibleEnd(s) == |s|;
  }

  /** Trimming removes one leading space before visible text. */
  lemma TrimLeadingSpace(s: string)
    requires s != [] && !IsTrimmed(s[0]) && !IsTrimmed(s[|s| - 1])
    ensures Trim(" " + s) == s
  {
    var t := " " + s;
    assert t[1..] == s;
    assert LeadingTrimmed(t) == 1;
    assert VisibleEnd(t) == |t|;
    assert t[1..|t|] == s;
  }

  function UpperChar(c: char): char {
    if 'a' <= c <= 'z' then (c as int - 'a' as int + 'A' as int) as char else c
  }

  /** String.toUpperCase, restricted to the ASCII letters. */
  function ToUpper(s: string): (r: string)
    ensures |r| == |s|
    ensures forall k :: 0 <= k < |s| ==> r[k] == UpperChar(s[k])
  {
    if s == [] then [] else [UpperChar(s[0])] + ToUpper(s[1..])
  }

  /** String.join(sep, items). */
  function Join(items: seq<string>, sep: string): string {
    if items == [] then ""
    else if |items| == 1 then items[0]
    else items[0] + sep + Join(items[1..], sep)
  }

  // ---------------------------------------------------------------- splitting

  /**
   * Splitting at every character of `seps`, keeping every piece, including
   * empty ones; the basis of String.split with a one-character pattern or a
   * character class such as "\\s".
   */
  function SplitChars(s: string, seps: set<char>): (r: seq<string>)
    ensures |r| >= 1
    ensures forall k :: 0 <= k < |r| ==> forall c :: c in r[k] ==> c !in seps
    decreases |s|
  {
    if s == [] then [""]
    else
      var rest := SplitChars(s[1..], seps);
      if s[0] in seps then [""] + rest
      else [[s[0]] + rest[0]] + rest[1..]
  }

  /** Java drops the empty strings at the end of a split. */
  function DropTrailingEmpty(parts: seq<string>): (r: seq<string>)
    ensures |r| <= |parts| && r == parts[..|r|]
    ensures r != [] ==> r[|r| - 1] != ""
    ensures forall k :: |r| <= k < |parts| ==> parts[k] == ""
  {
    if parts != [] && parts[|parts| - 1] == "" then DropTrailingEmpty(parts[..|parts| - 1])
    else parts
  }

  /** String.split with a pattern that matches exactly the characters of `seps`. */
  function JavaSplitChars(s: string, seps: set<char>): seq<string> {
    if s == "" then [""] else DropTrailingEmpty(SplitChars(s, seps))
  }

  /** The whitespace characters of Java's regular-expression class \s. */
  const Whitespace: set<char> := {' ', '\t', '\n', '\U{B}', '\U{C}', '\r'}

  predicate OccursAt(s: string, sep: string, i: int) {
    0 <= i && i + |sep| <= |s| && s[i..i + |sep|] == sep
  }

  /** The first position at or after `from` where `sep` occurs in `s`. */
  function FindFrom(s: string, sep: string, from: nat): (r: Option<nat>)
    requires |sep| > 0
    ensures r.Some? ==> from <= r.value && OccursAt(s, sep, r.value)
                          && forall j :: from <= j < r.value ==> !OccursAt(s, sep, j)
    ensures r.None? ==> forall j :: from <= j ==> !OccursAt(s, sep, j)
    decreases |s| - from
  {
    if from + |sep| > |s| then None
    else if s[from..from + |sep|] == sep then Some(from)
    else FindFrom(s, sep, from + 1)
  }

  /** Splitting around every occurrence of a literal, keeping empty pieces. */
  function SplitAround(s: string, sep: string): (r: seq<string>)
    requires |sep| > 0
    ensures |r| >= 1
    decreases |s|
  {
    match FindFrom(s, sep, 0)
    case None => [s]
    case Some(k) => [s[..k]] + SplitAround(s[k + |sep|..], sep)
  }

  /** String.split with a regular expression that matches the literal `sep`. */
  function JavaSplit(s: string, sep: string): seq<string>
    requires |sep| > 0
  {
    if s == "" then [""] else DropTrailingEmpty(SplitAround(s, sep))
  }

  lemma SplitAroundNone(s: string, sep: string)
    requires |sep| > 0
    requires forall j :: 0 <= j ==> !OccursAt(s, sep, j)
    ensures SplitAround(s, sep) == [s]
  {
    assert FindFrom(s, sep, 0).None?;
  }

  /** The first occurrence of `sep` in a + sep + b, when none starts inside a, ends the first piece. */
  lemma SplitAroundFirst(a: string, sep: string, b: string)
    requires |sep| > 0
    requires forall j :: 0 <= j < |a| ==> !OccursAt(a + sep + b, sep, j)
    ensures SplitAround(a + sep + b, sep) == [a] + SplitAround(b, sep)
  {
    var s := a + sep + b;
    assert s[|a|..|a| + |sep|] == sep;
    assert OccursAt(s, sep, |a|);
    var f := FindFrom(s, sep, 0);
    assert f == Some(|a|);
    assert s[..|a|] == a;
    assert s[|a| + |sep|..] == b;
  }

  lemma {:induction false} SplitCharsNone(s: string, seps: set<char>)
    requires forall c :: c in s ==> c !in seps
    ensures SplitChars(s, seps) == [s]
    decreases |s|
  {
    if s != [] {
      assert s[0] in s;
      assert forall c :: c in s[1..] ==> c in s;
      SplitCharsNone(s[1..], seps);
      assert [s[0]] + s[1..] == s;
    }
  }

  lemma {:induction false} SplitCharsAfter(a: string, c: char, b: string, seps: set<char>)
    requires c in seps
    requires forall x :: x in a ==> x !in seps
    ensures SplitChars(a + [c] + b, seps) == [a] + SplitChars(b, seps)
    decreases |a|
  {
    var s := a + [c] + b;
    if a == [] {
      assert s[1..] == b;
    } else {
      assert a[0] in a;
      assert forall x :: x in a[1..] ==> x in a;
      assert s[1..] == a[1..] + [c] + b;
      SplitCharsAfter(a[1..], c, b, seps);
      assert [a[0]] + a[1..] == a;
    }
  }

  /** Splitting a join at its separator gives back the joined items. */
  lemma {:induction false} SplitCharsJoin(items: seq<string>, c: char)
    requires |items| >= 1
    requires forall k :: 0 <= k < |items| ==> c !in items[k]
    ensures SplitChars(Join(items, [c]), {c}) == items
    decreases |items|
  {
    if |items| == 1 {
      SplitCharsNone(items[0], {c});
    } else {
      SplitCharsJoin(items[1..], c);
      SplitCharsAfter(items[0], c, Join(items[1..], [c]), {c});
    }
  }

  /**
   * String.split undoes String.join of items that are not empty and do not
   * contain the separator; a join of nothing splits into a single empty piece.
   */
  lemma JavaSplitJoin(items: seq<string>, c: char)
    requires forall k :: 0 <= k < |items| ==> c !in items[k] && items[k] != ""
    ensures JavaSplitChars(Join(items, [c]), {c}) == if items == [] then [""] else items
  {
    if items != [] {
      SplitCharsJoin(items, c);
      assert Join(items, [c]) != "" by {
        if |items| > 1 { assert |Join(items, [c])| >= |items[0]|; }
      }
    }
  }

  // ------------------------------------------------------------------ numbers

  predicate IsDigit(c: char) { '0' <= c <= '9' }

  predicate AllDigits(s: string) { forall k :: 0 <= k < |s| ==> IsDigit(s[k]) }

  function DigitChar(d: nat): char
    requires d < 10
  {
    ('0' as int + d) as char
  }

  /** The value of a run of decimal digits. */
  function DigitsValue(s: string): nat
    requires AllDigits(s)
  {
    if s == [] then 0 else 10 * DigitsValue(s[..|s| - 1]) + (s[|s| - 1] as int - '0' as int)
  }

  /** Integer.toString of a non-negative value. */
  function NatToString(n: nat): (r: string)
    ensures r != [] && AllDigits(r)
  {
    if n < 10 then [DigitChar(n)] else NatToString(n / 10) + [DigitChar(n % 10)]
  }

  /** Integer.toString, and the decimal text of an int in string concatenation. */
  function IntToString(i: int): string {
    if i < 0 then "-" + NatToString(-i) else NatToString(i)
  }

  /** The range of Java's 32-bit int. */
  predicate IsInt32(x: int) {
    -0x8000_0000 <= x <= 0x7FFF_FFFF
  }

  /** Java's int. */
  type Int32 = x: int | IsInt32(x)

  /** Two's-complement wrap-around of a mathematical integer into the int range. */
  function Wrap32(x: int): (r: int)
    ensures IsInt32(r)
    ensures (r - x) % 0x1_0000_0000 == 0
    ensures IsInt32(x) ==> r == x
  {
    (x + 0x8000_0000) % 0x1_0000_0000 - 0x8000_0000
  }

  /** Integer.parseInt: an optional sign followed by at least one digit, whose value fits an int. */
  function ParseInt(s: string): (r: Option<int>)
    ensures r.Some? ==> IsInt32(r.value)
  {
    if s == [] then None
    else
      var v: Option<int> :=
        if s[0] == '-' || s[0] == '+' then
          if |s| > 1 && AllDigits(s[1..]) then
            var n: int := DigitsValue(s[1..]);
            Some(if s[0] == '-' then -n else n)
          else None
        else if AllDigits(s) then Some(DigitsValue(s))
        else None;
      if v.Some? && IsInt32(v.value) then v else None
  }

  lemma {:induction false} DigitsOfNat(n: nat)
    ensures DigitsValue(NatToString(n)) == n
  {
    var r := NatToString(n);
    if n >= 10 {
      DigitsOfNat(n / 10);
      assert r[..|r| - 1] == NatToString(n / 10);
    }
  }

  /** Integer.parseInt reads back what Integer.toString writes, for every int. */
  lemma ParseIntToString(i: int)
    requires IsInt32(i)
    ensures ParseInt(IntToString(i)) == Some(i)
  {
    var s := IntToString(i);
    if i < 0 {
      assert s[0] == '-' && s[1..] == NatToString(-i);
      DigitsOfNat(-i);
    } else {
      assert s == NatToString(i) && IsDigit(s[0]);
      DigitsOfNat(i);
    }
  }

  function Pow10(m: nat): (r: nat)
    ensures r >= 1
  {
    if m == 0 then 1 else 10 * Pow10(m - 1)
  }

  /** A number of at least 10^m needs more than m decimal digits. */
  lemma {:induction false} NatToStringLength(n: nat, m: nat)
    requires n >= Pow10(m)
    ensures |NatToString(n)| > m
  {
    if m > 0 {
      NatToStringLength(n / 10, m - 1);
    }
  }

  // --------------------------------------------------------------- formatting

  function Spaces(n: nat): (r: string)
    ensures |r| == n && forall k :: 0 <= k < n ==> r[k] == ' '
  {
    if n == 0 then "" else " " + Spaces(n - 1)
  }

  /** printf's "%-Ns": s left-justified in a field of width N. */
  function PadRight(s: string, width: nat): (r: string)
    ensures |r| == if |s| < width then width else |s|
    ensures StartsWith(r, s)
    ensures forall k :: |s| <= k < |r| ==> r[k] == ' '
  {
    if |s| < width then s + Spaces(width - |s|) else s
  }
}
