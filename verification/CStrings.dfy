/** The C library calls the parser uses on its buffers. */
module CStrings {
  import opened Bytes

  /** The characters before the first NUL (strnlen gives their number). */
  function UpToNul(s: seq<byte>): (t: seq<byte>)
    ensures |t| <= |s| && t == s[..|t|]
    ensures forall i :: 0 <= i < |t| ==> t[i] != 0
    ensures |t| < |s| ==> s[|t|] == 0
  {
    if s == [] || s[0] == 0 then [] else [s[0]] + UpToNul(s[1..])
  }

  lemma {:induction false} UpToNulOfText(t: seq<byte>, rest: seq<byte>)
    requires forall i :: 0 <= i < |t| ==> t[i] != 0
    ensures UpToNul(t + [0] + rest) == t
  {
    if t != [] {
      assert (t + [0] + rest)[1..] == t[1..] + [0] + rest;
      UpToNulOfText(t[1..], rest);
    } else {
      assert (t + [0] + rest)[0] == 0;
    }
  }

  /** How much of a text a buffer of this size can hold with its NUL. */
  function Cut(text: seq<byte>, size: nat): seq<byte> {
    if size == 0 then [] else if |text| < size then text else text[..size - 1]
  }

  /** MEMZERO */
  method MemZero(a: array<byte>)
    modifies a
    ensures a[..] == Zeros(a.Length)
  {
    forall i | 0 <= i < a.Length {
      a[i] := 0;
    }
  }

  /** s with d written over it from position at on. */
  function Splice(s: seq<byte>, at: nat, d: seq<byte>): (r: seq<byte>)
    requires at + |d| <= |s|
    ensures |r| == |s|
  {
    s[..at] + d + s[at + |d|..]
  }

  /** MEMCPY into part of a buffer. */
  method MemCopy(dst: array<byte>, at: nat, src: seq<byte>)
    requires at + |src| <= dst.Length
    modifies dst
    ensures dst[..] == Splice(old(dst[..]), at, src)
  {
    forall i | 0 <= i < |src| {
      dst[at + i] := src[i];
    }
  }

  /** snprintf(a, size, "%s", text): the text, cut to fit, and a NUL; nothing for size 0. */
  method Snprintf(a: array<byte>, size: nat, text: seq<byte>)
    requires size <= a.Length
    modifies a
    ensures size == 0 ==> a[..] == old(a[..])
    ensures size > 0 ==>
              var t := Cut(text, size);
              a[..] == t + [0] + old(a[|t| + 1..])
  {
    if size == 0 {
      return;
    }
    var t := Cut(text, size);
    ghost var before := a[..];
    forall i | 0 <= i < |t| {
      a[i] := t[i];
    }
    a[|t|] := 0;
  }
}
