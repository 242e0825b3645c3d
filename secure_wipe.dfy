/**
 * secure_wipe_array<wchar_t, Size> (and its twin sec_cstr): a fixed buffer
 * of Size + 1 wide characters whose destructor overwrites every element.
 */
module SecureWipe {

  /** A Windows wchar_t: one 16-bit code unit, stored little-endian. */
  type WChar = bv16

  /**
   * The effect of memset(value, 0, nbytes) on 16-bit elements: the elements
   * wholly inside the first `nbytes` bytes become zero, an element straddling
   * the boundary loses its low byte, the rest keep their contents.
   */
  function ZeroBytes(s: seq<WChar>, nbytes: nat): (r: seq<WChar>)
    ensures |r| == |s|
    ensures forall i :: 0 <= i < |s| && 2 * i + 2 <= nbytes ==> r[i] == 0
    ensures forall i :: 0 <= i < |s| && 2 * i + 1 == nbytes ==> r[i] & 0x00FF == 0 && r[i] & 0xFF00 == s[i] & 0xFF00
    ensures forall i :: 0 <= i < |s| && nbytes <= 2 * i ==> r[i] == s[i]
  {
    seq(|s|, i requires 0 <= i < |s| =>
      if 2 * i + 2 <= nbytes then 0
      else if 2 * i + 1 == nbytes then s[i] & 0xFF00
      else s[i])
  }

  /**
   * memset over `Size` bytes clears only the first Size / 2 elements: the
   * upper half of the buffer, the terminator slot included, keeps whatever
   * the storage held.
   */
  lemma ZeroBytesClearsHalf(s: seq<WChar>, size: nat)
    requires |s| == size + 1
    ensures |ZeroBytes(s, size)| == size + 1
    ensures forall i :: 0 <= i < size / 2 ==> ZeroBytes(s, size)[i] == 0
    ensures forall i :: (size + 1) / 2 <= i <= size ==> ZeroBytes(s, size)[i] == s[i]
  {
  }

  /** An example: after memset over 2 bytes of a three-element buffer, only element 0 is clear. */
  lemma ZeroBytesLeavesTerminator()
    ensures ZeroBytes([0xFFFF, 0xFFFF, 0xFFFF], 2) == [0, 0xFFFF, 0xFFFF]
  {
  }

  /** memset over sizeof(wchar_t) * (Size + 1) bytes, as the destructor counts them, clears every element. */
  lemma ZeroBytesWhole(s: seq<WChar>)
    ensures ZeroBytes(s, 2 * |s|) == seq(|s|, i => 0)
  {
  }

  class SecureWipeArray {
    /** The template argument Size. */
    const size: nat
    /** T value[Size + 1] */
    const value: array<WChar>

    ghost predicate Valid() {
      value.Length == size + 1
    }

    /**
     * The constructor: the storage starts with the indeterminate contents
     * `initial`, and memset(value, 0, Size) clears its first Size bytes.
     */
    constructor (size: nat, initial: seq<WChar>)
      requires |initial| == size + 1
      ensures Valid() && this.size == size && fresh(value)
      ensures value[..] == ZeroBytes(initial, size)
    {
      this.size := size;
      var cleared := ZeroBytes(initial, size);
      value := new WChar[size + 1](i requires 0 <= i < size + 1 => cleared[i]);
    }

    /**
     * The constructor with the byte count the destructor uses,
     * sizeof(T) * (Size + 1): the whole buffer, terminator included, is zero.
     */
    constructor Cleared(size: nat, initial: seq<WChar>)
      requires |initial| == size + 1
      ensures Valid() && this.size == size && fresh(value)
      ensures value[..] == ZeroBytes(initial, 2 * (size + 1))
      ensures forall i :: 0 <= i < value.Length ==> value[i] == 0
    {
      this.size := size;
      var cleared := ZeroBytes(initial, 2 * (size + 1));
      ZeroBytesWhole(initial);
      value := new WChar[size + 1](i requires 0 <= i < size + 1 => cleared[i]);
    }

    /** size() */
    function Size(): (n: nat)
      requires Valid()
      ensures n + 1 == value.Length
    {
      size
    }

    /** begin(), as an index into `value`. */
    function Begin(): nat
    {
      0
    }

    /** end(), as an index: Size elements past begin(), leaving the terminator slot inside the buffer. */
    function End(): (e: nat)
      requires Valid()
      ensures e - Begin() == Size() && e < value.Length
    {
      size
    }

    /** The destructor: SecureZeroMemory over all Size + 1 elements. */
    method Wipe()
      requires Valid()
      modifies value
      ensures Valid()
      ensures forall i :: 0 <= i < value.Length ==> value[i] == 0
    {
      var i := 0;
      while i < value.Length
        invariant 0 <= i <= value.Length
        invariant forall k :: 0 <= k < i ==> value[k] == 0
      {
        value[i] := 0;
        i := i + 1;
      }
    }
  }
}
