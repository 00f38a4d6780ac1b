/**
 The writer of domain names (`_mdns_append_fqdn`): it compresses by searching the packet for an
 earlier occurrence of the remaining labels (section 4.1.4 of RFC 1035).
 */
module NameWriter {
  import opened Bytes
  import opened NameReader
  import opened Wire

  /** MDNS_NAME_REF, the tag of a compression pointer. */
  const NAME_REF: nat := 0xC000

  /**
   What an append leaves: the buffer, the advanced index, the C return value, and whether no write
   was refused on the way (the return value of a name alone does not tell).
   */
  datatype Written = Written(mem: seq<byte>, index: nat, ret: nat, whole: bool)

  /**
   The packet buffer: MAX octets, and as the last cell whatever lies behind the static array, which
   a trial read can touch.
   */
  predicate Buffer(mem: seq<byte>) {
    |mem| == MAX + 1
  }

  function AppendU8(mem: seq<byte>, index: nat, v: byte): (w: Written)
    requires Buffer(mem)
    ensures Buffer(w.mem) && index <= w.index && (index <= MAX ==> w.index <= MAX)
    ensures w.ret == w.index - index && AgreeBelow(mem, w.mem, if index <= MAX then index else MAX)
  {
    if index >= MAX then Written(mem, index, 0, false)
    else Written(mem[index := v], index + 1, 1, true)
  }

  function AppendU16(mem: seq<byte>, index: nat, v: nat): (w: Written)
    requires Buffer(mem) && v < 0x10000
    ensures Buffer(w.mem) && index <= w.index && (index <= MAX ==> w.index <= MAX)
    ensures w.ret == w.index - index && AgreeBelow(mem, w.mem, if index <= MAX then index else MAX)
  {
    if index + 1 >= MAX then Written(mem, index, 0, false)
    else Written(mem[index := v / 0x100][index + 1 := v % 0x100], index + 2, 2, true)
  }

  /** `memcpy(packet + at, s, |s|)` */
  function Copy(mem: seq<byte>, at: nat, s: text): (r: seq<byte>)
    requires at + |s| <= |mem|
    ensures |r| == |mem| && r[at..at + |s|] == s
    ensures forall i :: 0 <= i < |mem| && !(at <= i < at + |s|) ==> r[i] == mem[i]
  {
    mem[..at] + s + mem[at + |s|..]
  }

  /**
   `_mdns_append_string`: a length octet and the octets of the label.  The return value is an octet:
   it wraps to zero for a label of 255, which is written all the same.
   */
  function AppendString(mem: seq<byte>, index: nat, s: text): (w: Written)
    requires Buffer(mem) && |s| < 0x100
    ensures Buffer(w.mem) && index <= w.index && (index <= MAX ==> w.index <= MAX)
    ensures w.ret == (if |s| == 0xFF then 0 else w.index - index) && (w.whole ==> |s| < 0xFF)
    ensures AgreeBelow(mem, w.mem, if index <= MAX then index else MAX)
  {
    if index + |s| + 1 >= MAX then Written(mem, index, 0, false)
    else
      var ret := if |s| == 0xFF then 0 else 1 + |s|;
      Written(Copy(mem[index := |s|], index + 1, s), index + 1 + |s|, ret, |s| < 0xFF)
  }

  // ---------------------------------------------------------------- the search for a match

  /**
   The test the search applies at offset `loc`: the length octet, the octets of the first label,
   and a trial read of the name there, which is given the size of the whole buffer.  A label that
   would leave the buffer is no match, since the trial read refuses it.
   */
  predicate Accepts(mem: seq<byte>, loc: nat, strings: seq<text>)
    requires Buffer(mem) && strings != [] && loc < MAX
  {
    mem[loc] == |strings[0]| % 0x100
    && loc + 1 + |strings[0]| <= MAX
    && mem[loc + 1..loc + 1 + |strings[0]|] == strings[0]
    && var e := Expand(mem, loc, loc, MAX);
    ExpandItemsOk(mem, loc, loc, MAX);
    && e.ok
    && var v := Fill(EMPTY, e.items);
    && v.parts == |strings|
    && forall i :: 0 <= i < |strings| ==> CaseEq(strings[i], Slot(v, i))
  }

  /** The first offset in `from..index` the search accepts. */
  function FindMatch(mem: seq<byte>, from: nat, index: nat, strings: seq<text>): (loc: int)
    requires Buffer(mem) && strings != [] && from <= index <= MAX
    ensures loc == -1 || (from <= loc < index && Accepts(mem, loc, strings))
    ensures forall i :: from <= i < (if loc == -1 then index else loc) ==> !Accepts(mem, i, strings)
    decreases index - from
  {
    if from == index then -1
    else if Accepts(mem, from, strings) then from
    else FindMatch(mem, from + 1, index, strings)
  }

  /** `_mdns_append_fqdn` */
  function AppendFqdn(mem: seq<byte>, index: nat, strings: seq<text>): (w: Written)
    requires Buffer(mem) && index <= MAX && Strings(strings)
    ensures Buffer(w.mem) && index <= w.index <= MAX && w.ret <= w.index - index
    ensures w.whole ==> w.ret == w.index - index
    ensures AgreeBelow(mem, w.mem, index)
    decreases |strings|
  {
    if strings == [] then AppendU8(mem, index, 0)
    else
      var loc := FindMatch(mem, 0, index, strings);
      if loc == -1 then
        var head := AppendString(mem, index, strings[0]);
        if head.ret == 0 then head
        else
          var tail := AppendFqdn(head.mem, head.index, strings[1..]);
          Written(tail.mem, tail.index, head.ret + tail.ret, tail.whole)
      else
        AppendU16(mem, index, NAME_REF + loc)
  }

  /** Strings short enough for the length octet. */
  predicate Strings(strings: seq<text>) {
    forall i :: 0 <= i < |strings| ==> |strings[i]| < 0x100
  }

  /** Octets of the uncompressed labels. */
  function Size(strings: seq<text>): nat {
    if strings == [] then 0 else 1 + |strings[0]| + Size(strings[1..])
  }

  // ---------------------------------------------------------------- the writer itself

  method PutU8(packet: array<byte>, index: nat, v: byte) returns (newIndex: nat, ret: nat)
    requires packet.Length == MAX + 1
    modifies packet
    ensures var w := AppendU8(old(packet[..]), index, v);
            packet[..] == w.mem && newIndex == w.index && ret == w.ret
  {
    if index >= MAX {
      return index, 0;
    }
    packet[index] := v;
    return index + 1, 1;
  }

  method PutU16(packet: array<byte>, index: nat, v: nat) returns (newIndex: nat, ret: nat)
    requires packet.Length == MAX + 1 && v < 0x10000
    modifies packet
    ensures var w := AppendU16(old(packet[..]), index, v);
            packet[..] == w.mem && newIndex == w.index && ret == w.ret
  {
    if index + 1 >= MAX {
      return index, 0;
    }
    var i, r := PutU8(packet, index, v / 0x100);
    i, r := PutU8(packet, i, v % 0x100);
    return i, 2;
  }

  method PutString(packet: array<byte>, index: nat, s: text) returns (newIndex: nat, ret: nat)
    requires packet.Length == MAX + 1 && |s| < 0x100
    modifies packet
    ensures var w := AppendString(old(packet[..]), index, s);
            packet[..] == w.mem && newIndex == w.index && ret == w.ret
  {
    if index + |s| + 1 >= MAX {
      return index, 0;
    }
    packet[index] := |s|;
    ghost var start := packet[..];
    var i := 0;
    while i < |s|
      invariant i <= |s|
      invariant packet[..] == Copy(start, index + 1, s[..i])
    {
      packet[index + 1 + i] := s[i];
      i := i + 1;
    }
    assert s[..|s|] == s;
    return index + 1 + |s|, if |s| == 0xFF then 0 else |s| + 1;
  }

  /** The first offset at or behind `from` that holds `len`; `memchr`. */
  method MemChr(packet: array<byte>, from: nat, index: nat, len: byte) returns (loc: int)
    requires from <= index <= MAX < packet.Length
    ensures loc == -1 || (from <= loc < index && packet[loc] == len)
    ensures forall i :: from <= i < (if loc == -1 then index else loc) ==> packet[i] != len
  {
    loc := from;
    while loc < index
      invariant from <= loc <= index
      invariant forall i :: from <= i < loc ==> packet[i] != len
    {
      if packet[loc] == len {
        return;
      }
      loc := loc + 1;
    }
    loc := -1;
  }

  /** The comparison of the strings with the slots of a trial read. */
  method SlotsMatch(name: Name, strings: seq<text>) returns (same: bool)
    requires name.parts == |strings| <= 4
    ensures same <==> forall i :: 0 <= i < |strings| ==> CaseEq(strings[i], Slot(name.Value(), i))
  {
    for i := 0 to |strings|
      invariant forall j :: 0 <= j < i ==> CaseEq(strings[j], Slot(name.Value(), j))
    {
      if !CaseEq(strings[i], Slot(name.Value(), i)) {
        return false;
      }
    }
    return true;
  }

  /** The body of the search loop: `memcmp`, the trial read and the comparison. */
  method Try(packet: array<byte>, loc: nat, strings: seq<text>) returns (hit: bool)
    requires packet.Length == MAX + 1 && loc < MAX && strings != []
    requires packet[loc] == |strings[0]| % 0x100
    ensures hit == Accepts(packet[..], loc, strings)
  {
    hide Expand, Fill;
    var len := |strings[0]|;
    if loc + 1 + len > MAX || packet[loc + 1..loc + 1 + len] != strings[0] {
      return false;
    }
    assert packet[..][loc + 1..loc + 1 + len] == packet[loc + 1..loc + 1 + len];
    var name := new Name();
    var ok, _ := ReadFqdn(packet, loc, name, MAX);
    if !ok || name.parts != |strings| {
      return false;
    }
    hit := SlotsMatch(name, strings);
  }

  method Search(packet: array<byte>, index: nat, strings: seq<text>) returns (loc: int)
    requires packet.Length == MAX + 1 && index <= MAX && strings != []
    ensures loc == FindMatch(packet[..], 0, index, strings)
  {
    ghost var m := packet[..];
    var len := |strings[0]| % 0x100;
    loc := MemChr(packet, 0, index, len);
    NotTried(m, 0, if loc == -1 then index else loc, index, strings);
    while loc != -1
      invariant -1 <= loc < index && packet[..] == m && (loc != -1 ==> m[loc] == len)
      invariant FindMatch(m, 0, index, strings) == FindMatch(m, if loc == -1 then index else loc, index, strings)
      decreases if loc == -1 then 0 else index - loc
    {
      hide Accepts;
      var hit := Try(packet, loc, strings);
      if hit {
        return;
      }
      ghost var was := loc + 1;
      loc := MemChr(packet, loc + 1, index, len);
      NotTried(m, was, if loc == -1 then index else loc, index, strings);
    }
  }

  /** Offsets without the right length octet do not change where the search ends. */
  lemma {:induction false} NotTried(mem: seq<byte>, from: nat, bound: nat, index: nat, strings: seq<text>)
    requires Buffer(mem) && strings != [] && from <= bound <= index <= MAX
    requires forall i :: from <= i < bound ==> mem[i] != |strings[0]| % 0x100
    ensures FindMatch(mem, from, index, strings) == FindMatch(mem, bound, index, strings)
    decreases bound - from
  {
    if from < bound {
      NotTried(mem, from + 1, bound, index, strings);
    }
  }

  method PutFqdn(packet: array<byte>, index: nat, strings: seq<text>) returns (newIndex: nat, ret: nat)
    requires packet.Length == MAX + 1 && index <= MAX && Strings(strings)
    modifies packet
    ensures var w := AppendFqdn(old(packet[..]), index, strings);
            packet[..] == w.mem && newIndex == w.index && ret == w.ret
    decreases |strings|
  {
    hide FindMatch, Accepts, AppendString, AppendU16, AppendU8;
    if strings == [] {
      newIndex, ret := PutU8(packet, index, 0);
      return;
    }
    var loc := Search(packet, index, strings);
    if loc == -1 {
      newIndex, ret := PutString(packet, index, strings[0]);
      if ret == 0 {
        return;
      }
      var rest;
      newIndex, rest := PutFqdn(packet, newIndex, strings[1..]);
      return newIndex, ret + rest;
    }
    newIndex, ret := PutU16(packet, index, NAME_REF + loc);
  }
}
