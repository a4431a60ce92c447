/** The 16-key CHIP-8 keypad: one boolean slot per logical key 0x0..0xF. */
module Keyboard {
  import opened Bytes

  /** Number of logical keys. */
  const KeyCount := 16

  /** The state of a keypad with no key held down. */
  function Released(): (keys: seq<bool>)
    ensures |keys| == KeyCount
    ensures forall k :: 0 <= k < KeyCount ==> !keys[k]
  {
    seq(KeyCount, _ => false)
  }

  /** The key state after setting slot `index` to `press`. */
  function Pressed(keys: seq<bool>, index: byte, press: bool): (r: seq<bool>)
    requires |keys| == KeyCount && index < 16
    ensures |r| == KeyCount
    ensures r[index] == press
    ensures forall k :: 0 <= k < KeyCount && k != index as int ==> r[k] == keys[k]
  {
    keys[index as int := press]
  }

  /** Pressing (or releasing) the same key twice has the effect of doing it once. */
  lemma PressIdempotent(keys: seq<bool>, index: byte, press: bool)
    requires |keys| == KeyCount && index < 16
    ensures Pressed(Pressed(keys, index, press), index, press) == Pressed(keys, index, press)
  {
  }

  /** Presses of two different keys do not interfere: their order does not matter. */
  lemma PressCommutes(keys: seq<bool>, a: byte, pa: bool, b: byte, pb: bool)
    requires |keys| == KeyCount && a < 16 && b < 16 && a != b
    ensures Pressed(Pressed(keys, a, pa), b, pb) == Pressed(Pressed(keys, b, pb), a, pa)
  {
  }

  class Keyboard {
    const keys: array<bool>

    ghost predicate Valid()
      reads this
    {
      keys.Length == KeyCount
    }

    /** The abstract key state. */
    ghost function Keys(): seq<bool>
      reads this, keys
    {
      keys[..]
    }

    /** The zero value of the Go struct: every key released. */
    constructor ()
      ensures Valid() && fresh(keys)
      ensures Keys() == Released()
    {
      keys := new bool[KeyCount](_ => false);
    }

    /** Releases every key, slot by slot. */
    method Reset()
      requires Valid()
      modifies keys
      ensures Keys() == Released()
    {
      for k := 0 to keys.Length
        invariant forall j :: 0 <= j < k ==> !keys[j]
      {
        keys[k] := false;
      }
    }

    /** Sets slot `index` to `press`; Go panics for an index of 16 or more. */
    method PressKey(index: byte, press: bool)
      requires Valid() && index < 16
      modifies keys
      ensures Keys() == Pressed(old(Keys()), index, press)
    {
      keys[index] := press;
    }

    /** Reads slot `index` without changing anything; Go panics for an index of 16 or more. */
    function IsPressed(index: byte): (down: bool)
      reads this, keys
      requires Valid() && index < 16
      ensures down == Keys()[index]
    {
      keys[index]
    }
  }
}
