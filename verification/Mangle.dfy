/** New names after a conflict: a number behind the last dash, counted up. */
module Mangle {
  import opened Bytes

  const INT_MAX: nat := 0x7FFF_FFFF
  const ZERO: byte := 0x30
  const PLUS: byte := 0x2B

  // ---------------------------------------------------------------- numbers

  predicate IsDigit(b: byte) {
    ZERO <= b < ZERO + 10
  }

  /** `isspace` */
  predicate IsSpace(b: byte) {
    b == 0x20 || 0x09 <= b <= 0x0D
  }

  predicate Digits(s: text) {
    forall i :: 0 <= i < |s| ==> IsDigit(s[i])
  }

  function Number(s: text): nat
    requires Digits(s)
  {
    if s == [] then 0 else Number(s[..|s| - 1]) * 10 + (s[|s| - 1] - ZERO)
  }

  /** `%d` for a number that is not negative. */
  function Decimal(n: nat): (r: text)
    ensures r != [] && Digits(r)
  {
    if n < 10 then [ZERO + n] else Decimal(n / 10) + [ZERO + n % 10]
  }

  lemma {:induction false} NumberOfDecimal(n: nat)
    ensures Number(Decimal(n)) == n
  {
    if n >= 10 {
      NumberOfDecimal(n / 10);
      var r := Decimal(n);
      assert r[..|r| - 1] == Decimal(n / 10);
    } else {
      assert [ZERO + n][..0] == [];
    }
  }

  /** One more than a number takes at most one digit more. */
  lemma {:induction false} DecimalFits(s: text, n: nat)
    requires Digits(s) && n <= Number(s) + 1
    ensures |Decimal(n)| <= |s| + 1
  {
    if s != [] && n >= 10 {
      var t := s[..|s| - 1];
      assert n / 10 <= Number(t) + 1;
      DecimalFits(t, n / 10);
    }
  }

  function SkipSpaces(s: text, i: nat): (j: nat)
    requires i <= |s|
    ensures i <= j <= |s| && (j < |s| ==> !IsSpace(s[j])) && forall k :: i <= k < j ==> IsSpace(s[k])
    decreases |s| - i
  {
    if i < |s| && IsSpace(s[i]) then SkipSpaces(s, i + 1) else i
  }

  function SkipDigits(s: text, i: nat): (j: nat)
    requires i <= |s|
    ensures i <= j <= |s| && (j < |s| ==> !IsDigit(s[j])) && forall k :: i <= k < j ==> IsDigit(s[k])
    decreases |s| - i
  {
    if i < |s| && IsDigit(s[i]) then SkipDigits(s, i + 1) else i
  }

  /** Where `strtol` looks for digits: behind white space and a plus sign. */
  function DigitsFrom(s: text): (j: nat)
    ensures j <= |s|
  {
    var w := SkipSpaces(s, 0);
    if w < |s| && s[w] == PLUS then w + 1 else w
  }

  /** `strtol` on a text without minus sign: the number, and where it stopped. */
  function StrToL(s: text): (r: (nat, nat))
    ensures r.1 <= |s| && r.0 <= INT_MAX
  {
    var j := DigitsFrom(s);
    var e := SkipDigits(s, j);
    if e == j then (0, 0)
    else
      var n := Number(s[j..e]);
      (if n > INT_MAX then INT_MAX else n, e)
  }

  // ---------------------------------------------------------------- names

  /** `strrchr(s, '-')`, or the length if there is no dash. */
  function LastDash(s: text): (k: nat)
    ensures k <= |s| && (k < |s| ==> s[k] == DASH && forall i :: k < i < |s| ==> s[i] != DASH)
    ensures k == |s| ==> forall i :: 0 <= i < |s| ==> s[i] != DASH
  {
    if s == [] then 0
    else
      var k := LastDash(s[1..]);
      if k < |s| - 1 then k + 1 else if s[0] == DASH then 0 else |s|
  }

  /** The name ends in a dash and a number; a missing number counts as zero. */
  predicate Numbered(s: text) {
    var k := LastDash(s);
    k < |s| && StrToL(s[k + 1..]).1 == |s[k + 1..]|
  }

  function Suffix(s: text): nat
    requires Numbered(s)
  {
    StrToL(s[LastDash(s) + 1..]).0
  }

  /** The number to count from; the first number given to a name is 2. */
  function Count(s: text): nat {
    if Numbered(s) then Suffix(s) else 1
  }

  function Stem(s: text): text {
    if Numbered(s) then s[..LastDash(s)] else s
  }

  /** `_mdns_mangle_name`; at the largest `int` the increment is undefined. */
  function MangleName(s: text): text
    requires Count(s) < INT_MAX
  {
    Stem(s) + [DASH] + Decimal(Count(s) + 1)
  }

  lemma {:induction false} DashAt(a: text, b: text)
    requires forall i :: 0 <= i < |b| ==> b[i] != DASH
    ensures LastDash(a + [DASH] + b) == |a|
  {
    var s := a + [DASH] + b;
    var k := LastDash(s);
    assert s[|a|] == DASH;
    assert forall i :: |a| < i < |s| ==> s[i] == b[i - |a| - 1];
  }

  lemma {:induction false} AllDigits(s: text, i: nat)
    requires i <= |s| && forall k :: i <= k < |s| ==> IsDigit(s[k])
    ensures SkipDigits(s, i) == |s|
    decreases |s| - i
  {
    if i < |s| { AllDigits(s, i + 1); }
  }

  /** A number that was printed is read back, if it is no larger than the largest `int`. */
  lemma StrToLOfDecimal(n: nat)
    requires n <= INT_MAX
    ensures StrToL(Decimal(n)) == (n, |Decimal(n)|)
  {
    var s := Decimal(n);
    assert IsDigit(s[0]);
    assert DigitsFrom(s) == 0;
    AllDigits(s, 0);
    assert s[0..|s|] == s;
    NumberOfDecimal(n);
  }

  /** A mangled name has the same stem and a number that is one higher. */
  lemma MangledName(s: text)
    requires Count(s) < INT_MAX
    ensures var r := MangleName(s); Numbered(r) && Suffix(r) == Count(s) + 1 && Stem(r) == Stem(s)
  {
    var n := Count(s) + 1;
    var r := MangleName(s);
    DashAt(Stem(s), Decimal(n));
    StrToLOfDecimal(n);
    assert r[|Stem(s)| + 1..] == Decimal(n);
    assert r[..|Stem(s)|] == Stem(s);
  }

  /** The `n`-th new name. */
  function Renamed(s: text, n: nat): (r: text)
    requires Count(s) + n <= INT_MAX
    ensures n > 0 ==> Numbered(r)
    ensures (n > 0 || Numbered(s)) ==> Count(r) == Count(s) + n
    ensures Stem(r) == Stem(s)
  {
    if n == 0 then s
    else
      MangledName(Renamed(s, n - 1));
      MangleName(Renamed(s, n - 1))
  }

  /** Renaming never comes back to a name it has left. */
  lemma RenamingNeverCycles(s: text, i: nat, j: nat)
    requires i < j && Count(s) + j <= INT_MAX
    ensures Renamed(s, i) != Renamed(s, j)
  {
  }

  /** Each name fits the buffer it is written to: two octets more than the old one, or three. */
  lemma MangledNameFits(s: text)
    requires Count(s) < INT_MAX
    ensures |MangleName(s)| + 1 <= |s| + (if Numbered(s) then 2 else 3)
  {
    if Numbered(s) {
      var t := s[LastDash(s) + 1..];
      var j := DigitsFrom(t);
      var e := SkipDigits(t, j);
      if e > j { DecimalFits(t[j..e], Count(s) + 1); }
    }
  }

  /** Octets that are no dash and no NUL print as such. */
  lemma NoNul(s: text)
    requires NulFree(s) && Count(s) < INT_MAX
    ensures NulFree(MangleName(s))
  {
    var r, n := MangleName(s), Decimal(Count(s) + 1);
    forall i | 0 <= i < |r| ensures r[i] != 0 {
      if i > |Stem(s)| { assert IsDigit(n[i - |Stem(s)| - 1]); }
    }
  }

  // ---------------------------------------------------------------- the function itself

  method StrRChr(s: text) returns (k: nat)
    ensures k == LastDash(s)
  {
    k := |s|;
    while k > 0 && s[k - 1] != DASH
      invariant k <= |s| && forall i :: k <= i < |s| ==> s[i] != DASH
    {
      k := k - 1;
    }
    k := if k > 0 then k - 1 else |s|;
  }

  method FindDigits(s: text) returns (i: nat)
    ensures i == DigitsFrom(s)
  {
    i := 0;
    while i < |s| && IsSpace(s[i])
      invariant i <= |s| && SkipSpaces(s, 0) == SkipSpaces(s, i)
    {
      i := i + 1;
    }
    if i < |s| && s[i] == PLUS { i := i + 1; }
  }

  /** The run of digits at `i`, and what it is worth as far as an `int` can tell. */
  method ReadDigits(s: text, i: nat) returns (n: nat, j: nat)
    requires i <= |s|
    ensures j == SkipDigits(s, i) && n == if Number(s[i..j]) > INT_MAX then INT_MAX else Number(s[i..j])
  {
    n, j := 0, i;
    while j < |s| && IsDigit(s[j])
      invariant i <= j <= |s| && SkipDigits(s, i) == SkipDigits(s, j) && Digits(s[i..j])
      invariant n == if Number(s[i..j]) > INT_MAX then INT_MAX else Number(s[i..j])
    {
      assert s[i..j + 1][..j - i] == s[i..j];
      assert Number(s[i..j + 1]) == Number(s[i..j]) * 10 + (s[j] - ZERO);
      var next := n * 10 + (s[j] - ZERO);
      n := if next > INT_MAX then INT_MAX else next;
      j := j + 1;
    }
  }

  method ReadNumber(s: text) returns (suffix: nat, endp: nat)
    ensures (suffix, endp) == StrToL(s)
  {
    hide DigitsFrom, SkipDigits;
    var i := FindDigits(s);
    suffix, endp := ReadDigits(s, i);
    if endp == i { suffix, endp := 0, 0; }
  }

  /** `sprintf(ret + at, "-%d", n)`, with its terminating NUL. */
  method PrintSuffix(ret: array<byte>, at: nat, n: nat)
    requires at + 1 + |Decimal(n)| < ret.Length
    modifies ret
    ensures ret[..at + 2 + |Decimal(n)|] == old(ret[..at]) + [DASH] + Decimal(n) + [0]
  {
    var digits := Decimal(n);
    ret[at] := DASH;
    for i := 0 to |digits|
      invariant ret[..at + 1 + i] == old(ret[..at]) + [DASH] + digits[..i]
    {
      ret[at + 1 + i] := digits[i];
    }
    ret[at + 1 + |digits|] := 0;
    assert digits[..|digits|] == digits;
  }

  /** `_mdns_mangle_name`: the C string in the new buffer is the mangled name. */
  method NewName(name: text) returns (ret: array<byte>)
    requires NulFree(name) && Count(name) < INT_MAX
    ensures fresh(ret) && CStr(ret[..]) == MangleName(name)
  {
    hide StrToL, LastDash, Decimal;
    var k := StrRChr(name);
    var suffix := 2;
    var dash := k < |name|;
    if dash {
      var endp;
      suffix, endp := ReadNumber(name[k + 1..]);
      if endp != |name| - k - 1 { dash := false; }
    }
    MangledNameFits(name);
    NoNul(name);
    if !dash {
      DecimalTwo();
      ret := PrintNew(name, |name| + 3, |name|, 2);
    } else {
      ret := PrintNew(name, |name| + 2, k, suffix + 1);
    }
    hide CStr, NulFree;
  }

  /** A new buffer with the name, cut at `at`, and the number behind it. */
  method PrintNew(name: text, size: nat, at: nat, n: nat) returns (ret: array<byte>)
    requires at <= |name| < size && at + 1 + |Decimal(n)| < size && NulFree(name[..at] + [DASH] + Decimal(n))
    ensures fresh(ret) && CStr(ret[..]) == name[..at] + [DASH] + Decimal(n)
  {
    hide Decimal, CStr;
    ret := new byte[size];
    CopyName(ret, name);
    assert ret[..at] == ret[..|name|][..at] == name[..at];
    PrintSuffix(ret, at, n);
    ghost var s := name[..at] + [DASH] + Decimal(n);
    assert ret[..][..|s| + 1] == ret[..|s| + 1] == s + [0];
    ReadsBack(ret[..], s);
  }

  method CopyName(ret: array<byte>, name: text)
    requires |name| <= ret.Length
    modifies ret
    ensures ret[..|name|] == name
  {
    for i := 0 to |name|
      invariant ret[..i] == name[..i]
    {
      ret[i] := name[i];
    }
    assert name[..|name|] == name;
  }

  lemma DecimalTwo()
    ensures |Decimal(2)| == 1
  {
  }

  lemma {:induction false} ReadsBack(mem: seq<byte>, s: text)
    requires NulFree(s) && |s| < |mem| && mem[..|s| + 1] == s + [0]
    ensures CStr(mem) == s
  {
    if s == [] { assert mem[0] == mem[..1][0]; }
    else {
      assert mem[0] == (s + [0])[0] == s[0];
      assert mem[1..][..|s|] == mem[..|s| + 1][1..] == s[1..] + [0];
      assert NulFree(s[1..]);
      ReadsBack(mem[1..], s[1..]);
    }
  }
}
