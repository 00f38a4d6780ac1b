/**
 The wire layout of a message (section 4.1 of RFC 1035), as a walk that skips each name and then
 the stored data length, and what the record builders have to leave behind for it to work.
 */
module Framing {
  import opened Bytes
  import opened NameWriter
  import opened Wire

  /** MDNS_HEAD_LEN */
  const HEAD_LEN: nat := 12

  function U16At(mem: seq<byte>, pos: nat): nat
    requires pos + 1 < |mem|
  {
    var high: int := mem[pos];
    high * 0x100 + mem[pos + 1]
  }

  function U32At(mem: seq<byte>, pos: nat): nat
    requires pos + 3 < |mem|
  {
    U16At(mem, pos) * 0x10000 + U16At(mem, pos + 2)
  }

  /** The offset behind the name at `pos`, or -1. */
  function SkipName(mem: seq<byte>, pos: nat): (r: int)
    requires Buffer(mem)
    ensures r == -1 || pos < r <= MAX
    decreases MAX - pos
  {
    if pos >= MAX then -1
    else if mem[pos] == 0 then pos + 1
    else if mem[pos] >= 0xC0 then if pos + 1 < MAX then pos + 2 else -1
    else if mem[pos] > 63 then -1
    else SkipName(mem, pos + 1 + mem[pos])
  }

  function SkipQuestion(mem: seq<byte>, pos: nat): (r: int)
    requires Buffer(mem)
    ensures r == -1 || pos + 4 < r <= MAX
  {
    var n := SkipName(mem, pos);
    if n < 0 || n + 4 > MAX then -1 else n + 4
  }

  /** What tells records apart in a walk. */
  datatype Kind = Kind(rtype: nat, rclass: nat, ttl: nat)

  function KindAt(mem: seq<byte>, n: nat): Kind
    requires Buffer(mem) && n + 10 <= MAX
  {
    Kind(U16At(mem, n), U16At(mem, n + 2), U32At(mem, n + 4))
  }

  /** The offset behind a record of the given kind at `pos`, found by its stored data length, or -1. */
  function SkipRecord(mem: seq<byte>, pos: nat, kind: Kind): (r: int)
    requires Buffer(mem)
    ensures r == -1 || pos + 11 <= r <= MAX
  {
    var n := SkipName(mem, pos);
    if n < 0 || n + 10 > MAX then -1
    else
      var end := n + 10 + U16At(mem, n + 8);
      if end > MAX || KindAt(mem, n) != kind then -1 else end
  }

  function WalkQuestions(mem: seq<byte>, pos: nat, n: nat): (r: int)
    requires Buffer(mem)
    ensures r == -1 || pos + 5 * n <= r
    decreases n
  {
    if n == 0 then pos
    else
      var next := SkipQuestion(mem, pos);
      if next < 0 then -1 else WalkQuestions(mem, next, n - 1)
  }

  /** The offset behind records of exactly these kinds, or -1. */
  function WalkRecords(mem: seq<byte>, pos: nat, kinds: seq<Kind>): (r: int)
    requires Buffer(mem)
    ensures r == -1 || pos + 11 * |kinds| <= r
    decreases |kinds|
  {
    if kinds == [] then pos
    else
      var next := SkipRecord(mem, pos, kinds[0]);
      if next < 0 then -1 else WalkRecords(mem, next, kinds[1..])
  }

  // ---------------------------------------------------------------- frames

  ghost predicate AgreeOn(a: seq<byte>, b: seq<byte>, low: nat, high: int) {
    |a| == |b| && forall i :: low <= i < high && i < |a| ==> a[i] == b[i]
  }

  lemma {:induction false} SkipNameFrame(a: seq<byte>, b: seq<byte>, pos: nat)
    requires Buffer(a) && Buffer(b) && AgreeOn(a, b, pos, SkipName(a, pos))
    ensures SkipName(a, pos) >= 0 ==> SkipName(b, pos) == SkipName(a, pos)
    decreases MAX - pos
  {
    if SkipName(a, pos) >= 0 && 0 < a[pos] <= 63 {
      SkipNameFrame(a, b, pos + 1 + a[pos]);
    }
  }

  lemma SkipRecordFrame(a: seq<byte>, b: seq<byte>, pos: nat, kind: Kind)
    requires Buffer(a) && Buffer(b) && AgreeOn(a, b, pos, SkipRecord(a, pos, kind))
    ensures SkipRecord(a, pos, kind) >= 0 ==> SkipRecord(b, pos, kind) == SkipRecord(a, pos, kind)
  {
    if SkipRecord(a, pos, kind) >= 0 {
      SkipNameFrame(a, b, pos);
      var n := SkipName(a, pos);
      assert forall i :: n <= i < n + 10 ==> a[i] == b[i];
    }
  }

  lemma {:induction false} WalkQuestionsFrame(a: seq<byte>, b: seq<byte>, pos: nat, n: nat)
    requires Buffer(a) && Buffer(b) && AgreeOn(a, b, pos, WalkQuestions(a, pos, n))
    ensures WalkQuestions(a, pos, n) >= 0 ==> WalkQuestions(b, pos, n) == WalkQuestions(a, pos, n)
    decreases n
  {
    if n > 0 && WalkQuestions(a, pos, n) >= 0 {
      var next := SkipQuestion(a, pos);
      SkipNameFrame(a, b, pos);
      WalkQuestionsFrame(a, b, next, n - 1);
    }
  }

  lemma {:induction false} WalkRecordsFrame(a: seq<byte>, b: seq<byte>, pos: nat, kinds: seq<Kind>)
    requires Buffer(a) && Buffer(b) && AgreeOn(a, b, pos, WalkRecords(a, pos, kinds))
    ensures WalkRecords(a, pos, kinds) >= 0 ==> WalkRecords(b, pos, kinds) == WalkRecords(a, pos, kinds)
    decreases |kinds|
  {
    if kinds != [] && WalkRecords(a, pos, kinds) >= 0 {
      SkipRecordFrame(a, b, pos, kinds[0]);
      WalkRecordsFrame(a, b, SkipRecord(a, pos, kinds[0]), kinds[1..]);
    }
  }

  lemma {:induction false} WalkQuestionsMore(mem: seq<byte>, pos: nat, n: nat)
    requires Buffer(mem) && WalkQuestions(mem, pos, n) >= 0
    ensures WalkQuestions(mem, pos, n + 1) == SkipQuestion(mem, WalkQuestions(mem, pos, n))
    decreases n
  {
    if n > 0 {
      WalkQuestionsMore(mem, SkipQuestion(mem, pos), n - 1);
    }
  }

  lemma {:induction false} WalkRecordsMore(mem: seq<byte>, pos: nat, a: seq<Kind>, b: seq<Kind>)
    requires Buffer(mem) && WalkRecords(mem, pos, a) >= 0
    ensures WalkRecords(mem, pos, a + b) == WalkRecords(mem, WalkRecords(mem, pos, a), b)
    decreases |a|
  {
    if a == [] {
      assert a + b == b;
    } else {
      assert (a + b)[1..] == a[1..] + b;
      WalkRecordsMore(mem, SkipRecord(mem, pos, a[0]), a[1..], b);
    }
  }

  // ---------------------------------------------------------------- names

  /** Labels the length octet of a name can carry. */
  predicate Labels(strings: seq<text>) {
    forall i :: 0 <= i < |strings| ==> 1 <= |strings[i]| <= 63
  }

  /** A name no part of which was refused is skipped exactly, compressed or not. */
  lemma {:induction false} NameIsFramed(mem: seq<byte>, index: nat, strings: seq<text>)
    requires Buffer(mem) && index <= MAX && Labels(strings)
    ensures var w := AppendFqdn(mem, index, strings);
            && (w.whole ==> SkipName(w.mem, index) == w.index)
            && (w.whole && strings != [] ==> index + 2 <= w.index)
            && w.index <= index + Size(strings) + 1
    decreases |strings|
  {
    hide FindMatch, Accepts, SkipName, AppendString;
    if strings == [] || FindMatch(mem, 0, index, strings) >= 0 { LastIsFramed(mem, index, strings); }
    else {
      var head := AppendString(mem, index, strings[0]);
      LabelWritten(mem, index, strings[0]);
      if head.ret != 0 {
        NameIsFramed(head.mem, head.index, strings[1..]);
        LabelIsFramed(AppendFqdn(mem, index, strings).mem, index, strings[0]);
      }
    }
  }

  lemma LabelWritten(mem: seq<byte>, index: nat, s: text)
    requires Buffer(mem) && |s| < 0x100
    ensures var w := AppendString(mem, index, s);
            if index + |s| + 1 >= MAX then w == Written(mem, index, 0, false)
            else w.whole == (|s| < 0xFF) && w.index == index + 1 + |s| && w.mem[index] == |s|
  {
  }

  /** The terminator or the pointer a name ends with. */
  lemma LastIsFramed(mem: seq<byte>, index: nat, strings: seq<text>)
    requires Buffer(mem) && index <= MAX && Strings(strings)
    requires strings == [] || FindMatch(mem, 0, index, strings) >= 0
    ensures var w := AppendFqdn(mem, index, strings);
            && (w.whole ==> SkipName(w.mem, index) == w.index)
            && (w.whole && strings != [] ==> index + 2 <= w.index)
            && (w.whole ==> w.index <= index + if strings == [] then 1 else 2)
            && (!w.whole ==> w.index == index)
  {
    hide Accepts;
    if strings != [] { PointerIsFramed(mem, index, NAME_REF + FindMatch(mem, 0, index, strings)); }
  }

  lemma PointerIsFramed(mem: seq<byte>, index: nat, v: nat)
    requires Buffer(mem) && NAME_REF <= v < 0x10000
    ensures var w := AppendU16(mem, index, v); w.whole ==> SkipName(w.mem, index) == w.index == index + 2
  {
  }

  lemma LabelIsFramed(mem: seq<byte>, index: nat, s: text)
    requires Buffer(mem) && index + |s| + 1 < MAX && 1 <= |s| <= 63 && mem[index] == |s|
    ensures SkipName(mem, index) == SkipName(mem, index + 1 + |s|)
  {
  }

  /** A name that fits uncompressed is never refused. */
  lemma {:induction false} NameFits(mem: seq<byte>, index: nat, strings: seq<text>)
    requires Buffer(mem) && Labels(strings) && index + Size(strings) < MAX
    ensures AppendFqdn(mem, index, strings).whole
    decreases |strings|
  {
    if strings != [] && FindMatch(mem, 0, index, strings) == -1 {
      var head := AppendString(mem, index, strings[0]);
      NameFits(head.mem, head.index, strings[1..]);
    }
  }

  /**
   Octets the first part of a name needs: a terminator, a pointer, or a label with a terminator behind
   it.  For a label of 255 no room is enough, since its return value is zero.
   */
  function NeedsFirst(mem: seq<byte>, index: nat, strings: seq<text>): nat
    requires Buffer(mem) && index <= MAX
  {
    if strings == [] then 1
    else if FindMatch(mem, 0, index, strings) >= 0 then 2
    else NeedsLabel(strings[0])
  }

  function NeedsLabel(s: text): nat {
    if |s| == 0xFF then MAX + 1 else |s| + 2
  }

  /** Octets the whole name needs, compressed as the writer compresses it, as far as it gets. */
  function Needs(mem: seq<byte>, index: nat, strings: seq<text>): (n: nat)
    requires Buffer(mem) && index <= MAX && Strings(strings)
    ensures n >= NeedsFirst(mem, index, strings)
    decreases |strings|
  {
    if strings == [] || FindMatch(mem, 0, index, strings) >= 0 then NeedsFirst(mem, index, strings)
    else
      var head := AppendString(mem, index, strings[0]);
      if head.ret == 0 then NeedsLabel(strings[0]) else 1 + |strings[0]| + Needs(head.mem, head.index, strings[1..])
  }

  /** A name is written whole exactly when what it needs fits. */
  lemma {:induction false} WholeWhenItFits(mem: seq<byte>, index: nat, strings: seq<text>)
    requires Buffer(mem) && index <= MAX && Strings(strings)
    ensures AppendFqdn(mem, index, strings).whole <==> index + Needs(mem, index, strings) <= MAX
    decreases |strings|
  {
    hide FindMatch, Accepts;
    if strings != [] && FindMatch(mem, 0, index, strings) == -1 {
      var head := AppendString(mem, index, strings[0]);
      if head.ret != 0 { WholeWhenItFits(head.mem, head.index, strings[1..]); }
    }
  }

  /**
   The return value tells whether a name was written whole, except exactly when its first part fits
   and all of it does not.
   */
  lemma ReturnValueTells(mem: seq<byte>, index: nat, strings: seq<text>)
    requires Buffer(mem) && index <= MAX && Strings(strings)
    ensures var w := AppendFqdn(mem, index, strings);
            (w.whole <==> w.ret > 0)
              <==> !(index + NeedsFirst(mem, index, strings) <= MAX < index + Needs(mem, index, strings))
  {
    WholeWhenItFits(mem, index, strings);
    hide FindMatch, Accepts;
  }

  /**
   The exception, at any name that is not yet in the packet: its first label just fits and hides that
   the rest was refused, and the walk over the name then leaves the part that was written.
   */
  lemma OverflowIsHidden(mem: seq<byte>, s: text, rest: seq<text>)
    requires Buffer(mem) && 1 <= |s| <= 63 && rest != [] && Labels(rest)
    requires FindMatch(mem, 0, MAX - |s| - 2, [s] + rest) == -1
    ensures var w := AppendFqdn(mem, MAX - |s| - 2, [s] + rest);
            w.ret > 0 && !w.whole && w.index == MAX - 1 && SkipName(w.mem, MAX - |s| - 2) != w.index
  {
    var index := MAX - |s| - 2;
    var strings := [s] + rest;
    assert strings[0] == s && strings[1..] == rest;
    hide FindMatch, Accepts, AppendString, SkipName;
    var head := AppendString(mem, index, s);
    LabelWritten(mem, index, s);
    RefusedAtTheEnd(head.mem, rest);
    var w := AppendFqdn(mem, index, strings);
    assert w == Written(head.mem, MAX - 1, head.ret, false);
    LabelIsFramed(w.mem, index, s);
    SkipsTheLast(w.mem);
  }

  lemma RefusedAtTheEnd(mem: seq<byte>, rest: seq<text>)
    requires Buffer(mem) && rest != [] && Labels(rest)
    ensures AppendFqdn(mem, MAX - 1, rest) == Written(mem, MAX - 1, 0, false)
  {
  }

  /** Whatever the last octet of the packet holds, no name ends in front of it. */
  lemma SkipsTheLast(mem: seq<byte>)
    requires Buffer(mem)
    ensures SkipName(mem, MAX - 1) != MAX - 1
  {
  }

  // ---------------------------------------------------------------- records

  /** A record to be written: data octets, then possibly a name. */
  datatype Record = Record(owner: seq<text>, kind: Kind, prefix: seq<byte>, target: seq<text>, named: bool)

  /**
   `after` holds, from `from` to `upto`, the record as the builders spell it: the owner name as the
   name writer leaves it, the fixed fields, and the data behind a length field that counts it.
   Names are searched for while the length field is still zero.
   */
  ghost predicate Spelled(before: seq<byte>, after: seq<byte>, from: nat, upto: nat, r: Record)
  {
    && Buffer(before) && Buffer(after) && from <= upto <= MAX && Strings(r.owner) && Strings(r.target)
    && var owner := AppendFqdn(before, from, r.owner);
    var n := owner.index;
    var d := n + 10 + |r.prefix|;
    && owner.whole && d <= upto && AgreeBelow(owner.mem, after, n)
    && KindAt(after, n) == r.kind && U16At(after, n + 8) == upto - n - 10
    && after[n + 10..d] == r.prefix
    && if r.named then SpelledTarget(after, n, d, upto, r.target) else d == upto
  }

  ghost predicate SpelledTarget(after: seq<byte>, n: nat, d: nat, upto: nat, target: seq<text>)
    requires Buffer(after) && n + 10 <= d <= upto <= MAX && Strings(target)
  {
    exists mid: seq<byte> :: TargetOver(mid, after, n, d, upto, target)
  }

  ghost predicate TargetOver(mid: seq<byte>, after: seq<byte>, n: nat, d: nat, upto: nat, target: seq<text>)
    requires Buffer(after) && n + 10 <= d <= upto <= MAX && Strings(target)
  {
    && Buffer(mid) && AgreeBelow(mid, after, n + 8) && AgreeOn(mid, after, n + 10, d) && U16At(mid, n + 8) == 0
    && var w := AppendFqdn(mid, d, target);
    w.whole && w.index == upto && AgreeOn(w.mem, after, d, upto)
  }

  /** A record so spelled is skipped exactly, and the packet in front of it is as it was. */
  lemma SpelledIsFramed(before: seq<byte>, after: seq<byte>, from: nat, upto: nat, r: Record)
    requires Spelled(before, after, from, upto, r) && Labels(r.owner) && Labels(r.target)
    ensures SkipRecord(after, from, r.kind) == upto
    ensures AgreeBelow(before, after, from)
  {
    hide AppendFqdn, SpelledTarget;
    var owner := AppendFqdn(before, from, r.owner);
    NameIsFramed(before, from, r.owner);
    SkipNameFrame(owner.mem, after, from);
    hide SkipName, KindAt, U16At;
  }
}
