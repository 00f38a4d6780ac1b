/** Octets, C strings and the ASCII case folding of `strcasecmp`. */
module Bytes {

  type byte = b: int | 0 <= b < 256

  /** A label or a C string: the octets before the terminating NUL. */
  type text = seq<byte>

  predicate NulFree(s: text) {
    forall i :: 0 <= i < |s| ==> s[i] != 0
  }

  predicate SevenBit(s: text) {
    forall i :: 0 <= i < |s| ==> s[i] < 0x80
  }

  /** What C reads from a buffer holding `s`: everything before the first NUL. */
  function CStr(s: text): (r: text)
    ensures |r| <= |s| && r == s[..|r|]
    ensures NulFree(s) ==> r == s
    ensures NulFree(r)
  {
    if s == [] || s[0] == 0 then []
    else
      assert NulFree(s) ==> NulFree(s[1..]);
      [s[0]] + CStr(s[1..])
  }

  function Lower(b: byte): byte {
    if 'A' as int <= b <= 'Z' as int then b + 32 else b
  }

  /** `strcasecmp(a, b) == 0` */
  predicate CaseEq(a: text, b: text) {
    |a| == |b| && forall i :: 0 <= i < |a| ==> Lower(a[i]) == Lower(b[i])
  }

  lemma CaseEqSelf(s: text)
    ensures CaseEq(s, s)
  {
  }

  /** Two label lists that agree up to ASCII case, label by label. */
  predicate CaseEqAll(a: seq<text>, b: seq<text>) {
    |a| == |b| && forall i :: 0 <= i < |a| ==> CaseEq(a[i], b[i])
  }

  /** Two buffers that hold the same octets below `n`. */
  ghost predicate AgreeBelow(a: seq<byte>, b: seq<byte>, n: nat) {
    n <= |a| && n <= |b| && forall i :: 0 <= i < n ==> a[i] == b[i]
  }

  const UNDERSCORE: byte := 0x5F
  const DOT: byte := 0x2E
  const DASH: byte := 0x2D
  const EQUALS: byte := 0x3D

  /** The string literals of the source, as octets. */
  const LOCAL: text := [0x6C, 0x6F, 0x63, 0x61, 0x6C]
  const ARPA: text := [0x61, 0x72, 0x70, 0x61]
  const IP6: text := [0x69, 0x70, 0x36]
  const IN_ADDR: text := [0x69, 0x6E, 0x2D, 0x61, 0x64, 0x64, 0x72]
  const SUB: text := [0x5F, 0x73, 0x75, 0x62]

  lemma CaseEqSevenBit(a: text, b: text)
    requires CaseEq(a, b) && SevenBit(a)
    ensures SevenBit(b)
  {
    forall i | 0 <= i < |b| ensures b[i] < 0x80 {
      assert Lower(a[i]) == Lower(b[i]);
    }
  }

  lemma CaseEqNulFree(a: text, b: text)
    requires CaseEq(a, b) && NulFree(a)
    ensures NulFree(b)
  {
    forall i | 0 <= i < |b| ensures b[i] != 0 {
      assert Lower(a[i]) == Lower(b[i]);
    }
  }
}
