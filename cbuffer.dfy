/**
 * A fixed-size `char` array holding a NUL-terminated C string, as the
 * controller's global `XML[2048]` and `buf[32]` are used: `strcpy` and
 * `sprintf` overwrite it, `strcat` appends to it.
 */
module CBuffer {

  class CharBuffer {
    /** The storage; its length is the declared size of the C array. */
    const data: array<char>
    /** Position of the terminating NUL, i.e. `strlen`. */
    var len: nat

    /** The string stored is NUL-free and terminated inside the array. */
    ghost predicate Valid()
      reads this, data
    {
      len < data.Length &&
      data[len] == '\0' &&
      forall k :: 0 <= k < len ==> data[k] != '\0'
    }

    /** The C string held: everything before the first NUL. */
    function Contents(): (s: string)
      reads this, data
      requires Valid()
      ensures |s| < data.Length && '\0' !in s
    {
      data[..len]
    }

    /** A zero-initialised global array: holds the empty string. */
    constructor (size: nat)
      requires size > 0
      ensures Valid() && fresh(data)
      ensures data.Length == size && Contents() == []
    {
      data := new char[size](_ => '\0');
      len := 0;
    }

    /** `strcat(data, s)`: appends s and moves the terminator. */
    method Append(s: string)
      requires Valid() && '\0' !in s
      requires len + |s| < data.Length
      modifies this, data
      ensures Valid()
      ensures Contents() == old(Contents()) + s
    {
      var i := 0;
      while i < |s|
        invariant 0 <= i <= |s|
        invariant len == old(len) + i
        invariant data[..len] == old(data[..len]) + s[..i]
        invariant forall k :: 0 <= k < len ==> data[k] != '\0'
      {
        data[len] := s[i];
        len := len + 1;
        i := i + 1;
      }
      data[len] := '\0';
      assert s[..i] == s;
    }

    /** `strcpy(data, s)` (and `sprintf` into this buffer): replaces the contents by s. */
    method Copy(s: string)
      requires Valid() && '\0' !in s
      requires |s| < data.Length
      modifies this, data
      ensures Valid()
      ensures Contents() == s
    {
      len := 0;
      data[0] := '\0';
      Append(s);
    }
  }
}
