/** The score counter of a game (Score), a Java int that wraps around. */
module Scores {
  import opened Wrappers
  import opened Text

  class Score {
    var value: Int32

    /** A new score is 0. */
    constructor ()
      ensures value == 0
    {
      value := 0;
    }

    /** Adds d with 32-bit wrap-around and returns the new score. */
    method Increment(d: Int32) returns (r: Int32)
      modifies this
      ensures value == Wrap32(old(value) + d)
      ensures r == value
    {
      value := Wrap32(value + d);
      r := value;
    }

    /** Subtracts d, as an increment by the negation of d, and returns the new score. */
    method Decrement(d: Int32) returns (r: Int32)
      modifies this
      ensures value == Wrap32(old(value) - d)
      ensures r == value
    {
      ghost var before := value;
      r := Increment(Wrap32(-(d as int)));
      WrapSum(before, -(d as int));
    }

    /** Replaces the score and returns the new value. */
    method Set(v: Int32) returns (r: Int32)
      modifies this
      ensures value == v
      ensures r == v
    {
      value := v;
      r := v;
    }

    /** The decimal text of the score, which parseInt reads back as the score. */
    function ToString(): (s: string)
      reads this
      ensures ParseInt(s) == Some(value)
    {
      ParseIntToString(value);
      IntToString(value)
    }
  }

  /** Wrapping one operand first does not change a wrapped sum. */
  lemma WrapSum(a: int, b: int)
    ensures Wrap32(a + Wrap32(b)) == Wrap32(a + b)
  {
    var w := Wrap32(b);
    var k := (b + 0x8000_0000) / 0x1_0000_0000;
    assert w == b - k * 0x1_0000_0000;
    ModShift(a + b + 0x8000_0000, k);
  }

  lemma ModShift(x: int, k: int)
    ensures (x - k * 0x1_0000_0000) % 0x1_0000_0000 == x % 0x1_0000_0000
  {
    var m := 0x1_0000_0000;
    var q := x / m;
    assert x == q * m + x % m;
    assert x - k * m == (q - k) * m + x % m;
  }
}
