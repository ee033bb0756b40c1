/**
 * Repeat: a count that enumerates 1, 2, ..., count. It is made from a uint by an
 * unchecked cast to int, so a count of 2^31 or more becomes negative.
 */
module Repeat {
  import opened Wrappers
  import opened Text

  newtype uint32 = x: int | 0 <= x < 0x1_0000_0000

  /** (int)u: the bits of u read as a two's complement 32-bit number. */
  function ToInt32(u: uint32): (r: int)
    ensures -0x8000_0000 <= r < 0x8000_0000
    ensures r >= 0 <==> u < 0x8000_0000
    ensures (r - u as int) % 0x1_0000_0000 == 0
  {
    if u < 0x8000_0000 then u as int else u as int - 0x1_0000_0000
  }

  /** The struct, holding _times. */
  datatype Repeat = Repeat(times: int)

  /** The explicit operator Repeat(uint). */
  function FromUInt(u: uint32): Repeat {
    Repeat(ToInt32(u))
  }

  const Twice: Repeat := FromUInt(2)

  function Times(value: uint32): Repeat {
    FromUInt(value)
  }

  /** Enumerable.Range(1, count) for a non-negative count. */
  function Range(count: nat): (r: seq<int>)
    ensures |r| == count
    ensures forall i :: 0 <= i < count ==> r[i] == i + 1
  {
    if count == 0 then [] else Range(count - 1) + [count]
  }

  /** GetEnumerator(): the numbers 1 to times; a negative count makes Enumerable.Range throw. */
  function Elements(r: Repeat): (result: Result<seq<int>>)
    ensures result.Err? <==> r.times < 0
    ensures result.Err? ==> result.error == ArgumentOutOfRange("count")
    ensures result.Ok? ==>
      (|result.value| == r.times && forall i :: 0 <= i < |result.value| ==> result.value[i] == i + 1)
  {
    if r.times < 0 then Err(ArgumentOutOfRange("count")) else Ok(Range(r.times))
  }

  /** ToString(): "1 time", and "<n> times" for every other count, 0 included. */
  function ToString(r: Repeat): (s: string)
    ensures r.times == 1 ==> s == "1 time"
    ensures r.times != 1 ==> s == IntToString(r.times) + " times"
  {
    IntToString(r.times) + " time" + (if r.times == 1 then "" else "s")
  }

  /** Every count below 2^31 enumerates exactly 1..count in ascending order. */
  lemma {:induction false} SmallCountsEnumerate(u: uint32)
    requires u < 0x8000_0000
    ensures Elements(FromUInt(u)) == Ok(Range(u as nat))
  {
  }

  /** Twice enumerates exactly [1, 2] and prints "2 times"; Times is the cast. */
  lemma TwiceAndTimes(u: uint32)
    ensures Elements(Twice) == Ok([1, 2])
    ensures ToString(Twice) == "2 times"
    ensures Times(u) == FromUInt(u)
    ensures Elements(FromUInt(0)) == Ok([])
  {
    assert Range(2) == [1, 2] by {
      assert Range(1) == Range(0) + [1];
    }
    assert NatToString(2) == "2";
  }

  /** A count of 2^31 or more wraps to a negative int: the enumeration throws and ToString prints a negative number. */
  lemma LargeCountsWrap(u: uint32)
    requires u >= 0x8000_0000
    ensures FromUInt(u).times == u as int - 0x1_0000_0000 < 0
    ensures Elements(FromUInt(u)) == Err(ArgumentOutOfRange("count"))
    ensures ToString(FromUInt(u))[0] == '-'
  {
  }
}
