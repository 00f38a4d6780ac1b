/**
 The reader of domain names (`_mdns_read_fqdn`, `_mdns_parse_fqdn`): it follows compression
 pointers backwards (section 4.1.4 of RFC 1035) and sorts the labels it meets into the four
 strings of `mdns_name_t`.
 */
module NameReader {
  import opened Bytes

  /** MDNS_NAME_BUF_LEN - 1: the longest string a slot can hold. */
  const NAME_MAX: nat := 64

  // ---------------------------------------------------------------- the bytes of a name

  /** What one turn of the reading loop meets. */
  datatype Item =
    | Label(octets: text)
    | Jump
    | Broken

  datatype Expansion = Expansion(items: seq<Item>, ok: bool, next: nat)

  /**
   The name whose current segment starts at `seg`, read on from `pos`.  `mem` is the memory the
   packet pointer leads to and `limit` the packet length the caller states.  A pointer whose first
   octet is the last one of the packet makes the reader touch the octet behind it, so `mem` is at
   least one octet longer than `limit`.
   */
  function Expand(mem: seq<byte>, seg: nat, pos: nat, limit: nat): (e: Expansion)
    requires limit < |mem| && seg <= pos
    decreases seg, |mem| - pos
  {
    if pos >= limit || mem[pos] == 0 then
      Expansion([], true, pos + 1)
    else if mem[pos] < 0xC0 then
      var len := mem[pos];
      if len > 63 || pos + 1 + len > limit then
        Expansion([Broken], false, pos)
      else
        var rest := Expand(mem, seg, pos + 1 + len, limit);
        Expansion([Label(mem[pos + 1..pos + 1 + len])] + rest.items, rest.ok, rest.next)
    else
      var address := PointerTarget(mem, pos);
      if address >= seg then
        Expansion([Jump], false, pos)
      else
        var rest := Expand(mem, address, address, limit);
        Expansion([Jump] + rest.items, rest.ok, pos + 2)
  }

  function PointerTarget(mem: seq<byte>, pos: nat): nat
    requires pos + 1 < |mem|
  {
    var high: int := mem[pos];
    high % 0x40 * 0x100 + mem[pos + 1]
  }

  /** The labels among the items, in order: the name as RFC 1035 defines it. */
  function Labels(items: seq<Item>): (r: seq<text>)
    ensures |r| <= |items|
  {
    if items == [] then []
    else if items[0].Label? then [items[0].octets] + Labels(items[1..])
    else Labels(items[1..])
  }

  /** All octets the reading visits lie below `bound`. */
  predicate StaysBelow(mem: seq<byte>, seg: nat, pos: nat, limit: nat, bound: nat)
    requires limit < |mem| && seg <= pos
    decreases seg, |mem| - pos
  {
    pos < bound &&
    if pos >= limit || mem[pos] == 0 then true
    else if mem[pos] < 0xC0 then
      var len := mem[pos];
      len <= 63 && pos + 1 + len <= limit ==>
        pos + 1 + len <= bound && StaysBelow(mem, seg, pos + 1 + len, limit, bound)
    else
      pos + 1 < bound &&
      (PointerTarget(mem, pos) < seg ==>
         StaysBelow(mem, PointerTarget(mem, pos), PointerTarget(mem, pos), limit, bound))
  }

  /** A reading that stays below `bound` does not depend on anything at or above it. */
  lemma {:induction false} ExpandFrame(a: seq<byte>, b: seq<byte>, seg: nat, pos: nat, limit: nat, bound: nat)
    requires limit < |a| && limit < |b| && seg <= pos
    requires AgreeBelow(a, b, bound)
    requires StaysBelow(a, seg, pos, limit, bound)
    ensures StaysBelow(b, seg, pos, limit, bound)
    ensures Expand(b, seg, pos, limit) == Expand(a, seg, pos, limit)
    decreases seg, |a| - pos
  {
    if pos >= limit || a[pos] == 0 {
    } else if a[pos] < 0xC0 {
      var len := a[pos];
      if len <= 63 && pos + 1 + len <= limit {
        ExpandFrame(a, b, seg, pos + 1 + len, limit, bound);
        assert a[pos + 1..pos + 1 + len] == b[pos + 1..pos + 1 + len];
      }
    } else {
      var address := PointerTarget(a, pos);
      assert PointerTarget(b, pos) == address;
      if address < seg {
        ExpandFrame(a, b, address, address, limit, bound);
      }
    }
  }

  // ---------------------------------------------------------------- sorting labels into slots

  /** The value of an `mdns_name_t`. */
  datatype NameValue = NameValue(host: text, service: text, proto: text, domain: text,
                                 parts: nat, sub: bool, invalid: bool)

  const EMPTY: NameValue := NameValue([], [], [], [], 0, false, false)

  /** The `i`-th string of the structure, in memory order. */
  function Slot(v: NameValue, i: nat): text
    requires i < 4
  {
    if i == 0 then v.host else if i == 1 then v.service else if i == 2 then v.proto else v.domain
  }

  /** `strlcat(dst, src, sizeof(name->host))` */
  function Concat(dst: text, src: text): text {
    if |dst| + |src| <= NAME_MAX then dst + src
    else if |dst| < NAME_MAX then dst + src[..NAME_MAX - |dst|]
    else dst
  }

  /** A second label that is not a service type, not a domain and so part of a dotted host name. */
  predicate ExtendsHost(v: NameValue, s: text)
    requires |s| > 0
  {
    v.parts == 1 && s[0] != UNDERSCORE
    && !CaseEq(CStr(s), LOCAL) && !CaseEq(CStr(s), ARPA)
    && !CaseEq(CStr(s), IP6) && !CaseEq(CStr(s), IN_ADDR)
  }

  function Place(v: NameValue, s: text): (r: NameValue)
    requires |s| > 0 && v.parts <= 4 && (v.parts == 4 ==> v.invalid)
    ensures v.parts <= r.parts <= v.parts + 1 && r.parts <= 4
  {
    if ExtendsHost(v, s) then
      v.(host := Concat(Concat(v.host, [DOT]), CStr(s)))
    else if CaseEq(CStr(s), SUB) then v.(sub := true)
    else if v.invalid then v
    else if v.parts == 0 then v.(host := CStr(s), parts := 1)
    else if v.parts == 1 then v.(service := CStr(s), parts := 2)
    else if v.parts == 2 then v.(proto := CStr(s), parts := 3)
    else v.(domain := CStr(s), parts := 4)
  }

  predicate ItemsOk(items: seq<Item>) {
    forall i :: 0 <= i < |items| && items[i].Label? ==> 0 < |items[i].octets| <= 63
  }

  /** One turn of the loop: a fifth turn marks the name invalid before anything is stored. */
  function Enter(v: NameValue): NameValue {
    if v.parts == 4 then v.(invalid := true) else v
  }

  function Fill(v: NameValue, items: seq<Item>): (r: NameValue)
    requires ItemsOk(items) && v.parts <= 4
    ensures v.parts <= r.parts <= 4
    ensures r.invalid ==> v.invalid || r.parts == 4
    decreases |items|
  {
    if items == [] then v
    else
      var entered := Enter(v);
      var placed := if items[0].Label? then Place(entered, items[0].octets) else entered;
      Fill(placed, items[1..])
  }

  lemma {:induction false} ExpandItemsOk(mem: seq<byte>, seg: nat, pos: nat, limit: nat)
    requires limit < |mem| && seg <= pos
    ensures ItemsOk(Expand(mem, seg, pos, limit).items)
    decreases seg, |mem| - pos
  {
    if pos >= limit || mem[pos] == 0 {
    } else if mem[pos] < 0xC0 {
      var len := mem[pos];
      if len <= 63 && pos + 1 + len <= limit {
        ExpandItemsOk(mem, seg, pos + 1 + len, limit);
      }
    } else {
      var address := PointerTarget(mem, pos);
      if address < seg {
        ExpandItemsOk(mem, address, address, limit);
      }
    }
  }

  // ---------------------------------------------------------------- the reader itself

  /** `mdns_name_t`, filled in place. */
  class Name {
    var host: text
    var service: text
    var proto: text
    var domain: text
    var parts: nat
    var sub: bool
    var invalid: bool

    constructor ()
      ensures Value() == EMPTY
    {
      host, service, proto, domain := [], [], [], [];
      parts, sub, invalid := 0, false, false;
    }

    function Value(): NameValue
      reads this
    {
      NameValue(host, service, proto, domain, parts, sub, invalid)
    }

    method Clear()
      modifies this
      ensures Value() == EMPTY
    {
      host, service, proto, domain := [], [], [], [];
      parts, sub, invalid := 0, false, false;
    }

    /** The three-way branch on a complete label held in `buf`. */
    method Store(buf: text)
      requires |buf| > 0 && parts <= 4 && (parts == 4 ==> invalid)
      modifies this
      ensures Value() == Place(old(Value()), buf)
    {
      var s := CStr(buf);
      if parts == 1 && buf[0] != UNDERSCORE && !CaseEq(s, LOCAL) && !CaseEq(s, ARPA)
         && !CaseEq(s, IP6) && !CaseEq(s, IN_ADDR)
      {
        host := Concat(host, [DOT]);
        host := Concat(host, s);
      } else if CaseEq(s, SUB) {
        sub := true;
      } else if !invalid {
        if parts == 0 { host := s; }
        else if parts == 1 { service := s; }
        else if parts == 2 { proto := s; }
        else { domain := s; }
        parts := parts + 1;
      }
    }
  }

  /** What the items of one loop turn do to the name. */
  lemma FillTurn(v: NameValue, m: seq<byte>, seg: nat, pos: nat, limit: nat)
    requires limit < |m| && seg <= pos < limit && m[pos] != 0 && v.parts <= 4
    requires ItemsOk(Expand(m, seg, pos, limit).items)
    ensures var e := Expand(m, seg, pos, limit);
            if m[pos] >= 0xC0 then
              if PointerTarget(m, pos) >= seg then !e.ok && Fill(v, e.items) == Enter(v)
              else
                var rest := Expand(m, PointerTarget(m, pos), PointerTarget(m, pos), limit);
                && ItemsOk(rest.items) && Fill(v, e.items) == Fill(Enter(v), rest.items)
                && e.ok == rest.ok && e.next == pos + 2
            else if m[pos] > 63 || pos + 1 + m[pos] > limit then !e.ok && Fill(v, e.items) == Enter(v)
            else
              var rest := Expand(m, seg, pos + 1 + m[pos], limit);
              && ItemsOk(rest.items) && e.ok == rest.ok && e.next == rest.next
              && Fill(v, e.items) == Fill(Place(Enter(v), m[pos + 1..pos + 1 + m[pos]]), rest.items)
  {
    var e := Expand(m, seg, pos, limit);
    forall i | 0 <= i < |e.items| - 1 && e.items[1..][i].Label? ensures 0 < |e.items[1..][i].octets| <= 63 {
      assert e.items[1..][i] == e.items[i + 1];
    }
    if m[pos] >= 0xC0 {
      if PointerTarget(m, pos) < seg {
        assert e.items[1..] == Expand(m, PointerTarget(m, pos), PointerTarget(m, pos), limit).items;
      }
    } else if m[pos] <= 63 && pos + 1 + m[pos] <= limit {
      assert e.items[1..] == Expand(m, seg, pos + 1 + m[pos], limit).items;
    }
  }

  lemma TargetOf(m: seq<byte>, pos: nat)
    requires pos + 1 < |m|
    ensures PointerTarget(m, pos) == (var high: int := m[pos]; high % 0x40 * 0x100 + m[pos + 1])
  {
  }

  lemma ExpandEnd(m: seq<byte>, seg: nat, pos: nat, limit: nat)
    requires limit < |m| && seg <= pos && (pos >= limit || m[pos] == 0)
    ensures Expand(m, seg, pos, limit) == Expansion([], true, pos + 1)
    ensures forall v: NameValue | v.parts <= 4 :: Fill(v, []) == v
  {
  }

  /** Copies one label into `buf`, giving up at the end of the packet. */
  method ReadLabel(mem: array<byte>, pos: nat, limit: nat) returns (ok: bool, buf: text)
    requires pos < limit < mem.Length && mem[pos] <= 63
    ensures ok <==> pos + 1 + mem[pos] <= limit
    ensures ok ==> buf == mem[pos + 1..pos + 1 + mem[pos]]
  {
    var len := mem[pos];
    buf := [];
    while |buf| < len
      invariant |buf| <= len && pos + 1 + |buf| <= limit
      invariant buf == mem[pos + 1..pos + 1 + |buf|]
    {
      if pos + 1 + |buf| >= limit {
        return false, buf;
      }
      buf := buf + [mem[pos + 1 + |buf|]];
    }
    return true, buf;
  }

  /**
   `_mdns_read_fqdn`.  The result is the offset behind the name, or nothing for a name that cannot
   be read.  Recursion terminates because every jump goes strictly before the segment it leaves.
   */
  method ReadFqdn(mem: array<byte>, start: nat, name: Name, limit: nat) returns (ok: bool, next: nat)
    requires limit < mem.Length && name.parts <= 4
    modifies name
    ensures ok == Expand(mem[..], start, start, limit).ok
    ensures ok ==> next == Expand(mem[..], start, start, limit).next
    ensures ItemsOk(Expand(mem[..], start, start, limit).items)
    ensures name.Value() == Fill(old(name.Value()), Expand(mem[..], start, start, limit).items)
    decreases start
  {
    hide Expand, Fill, Place, PointerTarget;
    ghost var m := mem[..];
    ghost var whole := Expand(m, start, start, limit);
    ExpandItemsOk(m, start, start, limit);
    ghost var all := Fill(name.Value(), whole.items);
    var pos := start;
    while pos < limit && mem[pos] != 0
      invariant start <= pos && name.parts <= 4
      invariant ItemsOk(Expand(m, start, pos, limit).items)
      invariant Fill(name.Value(), Expand(m, start, pos, limit).items) == all
      invariant whole.ok == Expand(m, start, pos, limit).ok
      invariant whole.ok ==> whole.next == Expand(m, start, pos, limit).next
      decreases limit - pos
    {
      FillTurn(name.Value(), m, start, pos, limit);
      if name.parts == 4 {
        name.invalid := true;
      }
      var len := mem[pos];
      if len < 0xC0 {
        if len > 63 {
          return false, 0;
        }
        var copied, buf := ReadLabel(mem, pos, limit);
        if !copied {
          return false, 0;
        }
        assert buf == m[pos + 1..pos + 1 + len];
        name.Store(buf);
        pos := pos + 1 + len;
      } else {
        var high: int := len;
        var address := high % 0x40 * 0x100 + mem[pos + 1];
        assert address == PointerTarget(m, pos) by { TargetOf(m, pos); }
        if address >= start {
          return false, 0;
        }
        ok, next := ReadFqdn(mem, address, name, limit);
        return ok, pos + 2;
      }
    }
    ExpandEnd(m, start, pos, limit);
    return true, pos + 1;
  }

  // ---------------------------------------------------------------- names as the parser sees them

  /** `_mdns_parse_fqdn` after the read: move the strings to the slots their number calls for. */
  function Arrange(v: NameValue): NameValue {
    if v.parts == 0 || v.invalid then v
    else
      var moved :=
        if v.parts == 3 then v.(host := [], service := v.host, proto := v.service, domain := v.proto)
        else if v.parts == 2 then v.(service := [], proto := [], domain := v.service)
        else v;
      if CaseEq(moved.domain, LOCAL) || CaseEq(moved.domain, ARPA) then moved
      else moved.(invalid := true)
  }

  method ParseFqdn(mem: array<byte>, start: nat, name: Name, limit: nat) returns (ok: bool, next: nat)
    requires limit < mem.Length
    modifies name
    ensures ok == Expand(mem[..], start, start, limit).ok
    ensures ok ==> next == Expand(mem[..], start, start, limit).next
    ensures ItemsOk(Expand(mem[..], start, start, limit).items)
    ensures ok ==> name.Value() == Arrange(Fill(EMPTY, Expand(mem[..], start, start, limit).items))
  {
    hide Expand, Fill;
    name.Clear();
    ok, next := ReadFqdn(mem, start, name, limit);
    if !ok || name.parts == 0 || name.invalid {
      return;
    }
    if name.parts == 3 {
      name.domain := name.proto;
      name.proto := name.service;
      name.service := name.host;
      name.host := [];
    } else if name.parts == 2 {
      name.domain := name.service;
      name.service := [];
      name.proto := [];
    }
    if !CaseEq(name.domain, LOCAL) && !CaseEq(name.domain, ARPA) {
      name.invalid := true;
    }
  }

  /** A label that continues a dotted host name when it follows the first label. */
  predicate HostWord(s: text) {
    |s| > 0 && NulFree(s) && s[0] != UNDERSCORE
    && !CaseEq(s, LOCAL) && !CaseEq(s, ARPA) && !CaseEq(s, IP6) && !CaseEq(s, IN_ADDR)
  }

  /** A label that ends the host part: a `_type`, `_proto` or domain label other than `_sub`. */
  predicate TailWord(s: text) {
    |s| > 0 && NulFree(s) && !HostWord(s) && !CaseEq(s, SUB)
  }

  function DotJoin(hs: seq<text>): text {
    if hs == [] then [] else [DOT] + hs[0] + DotJoin(hs[1..])
  }

  /** Strings beyond the filled slots keep what they held. */
  lemma {:induction false} NoSlotBeyond(v: NameValue, items: seq<Item>)
    requires ItemsOk(items) && v.parts <= 4
    ensures forall i :: Fill(v, items).parts <= i < 4 && 1 <= i ==> Slot(Fill(v, items), i) == Slot(v, i)
    decreases |items|
  {
    if items != [] {
      var e := Enter(v);
      NoSlotBeyond(if items[0].Label? then Place(e, items[0].octets) else e, items[1..]);
    }
  }

  lemma LabelsTail(items: seq<Item>, ls: seq<text>)
    requires items != [] && Labels(items) == ls
    ensures items[0].Label? ==> ls != [] && ls[0] == items[0].octets && Labels(items[1..]) == ls[1..]
    ensures !items[0].Label? ==> Labels(items[1..]) == ls
    ensures ItemsOk(items) ==> ItemsOk(items[1..])
  {
  }

  /** A word that is no part of a host name goes to the next slot. */
  lemma PlaceTail(v: NameValue, s: text)
    requires 1 <= v.parts < 4 && !v.invalid && TailWord(s) && |s| > 0
    ensures var w := Place(v, s);
            && w.parts == v.parts + 1 && w.host == v.host && w.sub == v.sub && !w.invalid && Slot(w, v.parts) == s
            && forall i :: 1 <= i < v.parts ==> Slot(w, i) == Slot(v, i)
  {
  }

  lemma EnterSlots(v: NameValue)
    ensures forall i :: 0 <= i < 4 ==> Slot(Enter(v), i) == Slot(v, i)
  {
  }

  /** Words behind the host part land in the next free slots, one each. */
  lemma {:induction false} SortTail(v: NameValue, items: seq<Item>, ts: seq<text>)
    requires ItemsOk(items) && Labels(items) == ts
    requires 1 <= v.parts && v.parts + |ts| <= 4 && (v.invalid ==> v.parts == 4)
    requires forall i :: 0 <= i < |ts| ==> TailWord(ts[i])
    ensures var r := Fill(v, items);
            && r.parts == v.parts + |ts| && r.host == v.host && r.sub == v.sub
            && (forall i :: 1 <= i < v.parts ==> Slot(r, i) == Slot(v, i))
            && (forall i :: v.parts <= i < r.parts ==> Slot(r, i) == ts[i - v.parts])
    decreases |items|
  {
    hide Place, Slot, TailWord, Fill;
    FillItem(v, items);
    if items != [] {
      EnterSlots(v);
      LabelsTail(items, ts);
      var e := Enter(v);
      if items[0].Label? {
        var w := Place(e, ts[0]);
        assert TailWord(ts[0]);
        PlaceTail(e, ts[0]);
        SortTail(w, items[1..], ts[1..]);
        SlotsBehind(v, w, Fill(w, items[1..]), ts);
      } else {
        SortTail(e, items[1..], ts);
      }
    }
  }

  lemma FillItem(v: NameValue, items: seq<Item>)
    requires ItemsOk(items) && v.parts <= 4
    ensures Fill(v, items) ==
            if items == [] then v
            else if items[0].Label? then Fill(Place(Enter(v), items[0].octets), items[1..])
            else Fill(Enter(v), items[1..])
  {
  }

  lemma SlotsBehind(v: NameValue, w: NameValue, r: NameValue, ts: seq<text>)
    requires ts != [] && w.parts == v.parts + 1 && r.parts == v.parts + |ts| <= 4
    requires (forall i :: 1 <= i < v.parts ==> Slot(w, i) == Slot(v, i)) && Slot(w, v.parts) == ts[0]
    requires forall i :: 1 <= i < w.parts ==> Slot(r, i) == Slot(w, i)
    requires forall i :: w.parts <= i < r.parts ==> Slot(r, i) == ts[1..][i - w.parts]
    requires v.parts >= 1
    ensures forall i :: 1 <= i < v.parts ==> Slot(r, i) == Slot(v, i)
    ensures forall i :: v.parts <= i < r.parts ==> Slot(r, i) == ts[i - v.parts]
  {
    hide Slot;
    forall i | v.parts <= i < r.parts ensures Slot(r, i) == ts[i - v.parts] {
      if i > v.parts { assert ts[i - v.parts] == ts[1..][i - w.parts]; }
    }
  }

  lemma {:induction false} NoLabels(items: seq<Item>)
    requires Labels(items) == []
    ensures forall i :: 0 <= i < |items| ==> !items[i].Label?
  {
    if items != [] {
      LabelsTail(items, []);
      NoLabels(items[1..]);
      forall i | 0 <= i < |items| ensures !items[i].Label? { if i > 0 { assert items[i] == items[1..][i - 1]; } }
    }
  }

  /** Four slots full, anything that follows marks the name invalid: the last item is then no label. */
  lemma {:induction false} InvalidTail(v: NameValue, items: seq<Item>, ts: seq<text>)
    requires ItemsOk(items) && Labels(items) == ts
    requires 1 <= v.parts && v.parts + |ts| <= 4 && (v.invalid ==> v.parts == 4)
    requires forall i :: 0 <= i < |ts| ==> TailWord(ts[i])
    ensures Fill(v, items).invalid ==
            (v.invalid || (v.parts + |ts| == 4 && items != [] && !items[|items| - 1].Label?))
    decreases |items|
  {
    hide Place, Slot, TailWord;
    if items != [] {
      LabelsTail(items, ts);
      var e := Enter(v);
      if items[0].Label? {
        assert TailWord(ts[0]);
        PlaceTail(e, ts[0]);
        InvalidTail(Place(e, ts[0]), items[1..], ts[1..]);
        if |items| == 1 { assert Labels(items[1..]) == []; }
      } else {
        InvalidTail(e, items[1..], ts);
        if ts == [] { NoLabels(items); }
        if |items| == 1 { assert Labels(items[1..]) == []; }
      }
    }
  }

  lemma {:induction false} InvalidHost(v: NameValue, items: seq<Item>, hs: seq<text>, ts: seq<text>)
    requires ItemsOk(items) && Labels(items) == hs + ts && ts != []
    requires v.parts == 1 && !v.invalid && |ts| <= 3 && |v.host| + |DotJoin(hs)| <= NAME_MAX
    requires forall i :: 0 <= i < |hs| ==> HostWord(hs[i])
    requires forall i :: 0 <= i < |ts| ==> TailWord(ts[i])
    ensures items != [] && Fill(v, items).invalid == (|ts| == 3 && !items[|items| - 1].Label?)
    decreases |items|
  {
    assert Labels([]) == [];
    if hs == [] {
      assert hs + ts == ts;
      InvalidTail(v, items, ts);
    } else {
      LabelsTail(items, hs + ts);
      assert (hs + ts)[0] == hs[0] && (hs + ts)[1..] == hs[1..] + ts;
      if items[0].Label? {
        assert HostWord(hs[0]);
        JoinMore(v.host, hs);
        PlaceWord(v, hs[0]);
        var w := Place(v, hs[0]);
        hide Place, HostWord, TailWord, DotJoin;
        InvalidHost(w, items[1..], hs[1..], ts);
      } else {
        InvalidHost(v, items[1..], hs, ts);
      }
    }
  }

  lemma JoinMore(host: text, hs: seq<text>)
    requires hs != []
    ensures host + DotJoin(hs) == (host + [DOT] + hs[0]) + DotJoin(hs[1..])
    ensures |host + [DOT] + hs[0]| + |DotJoin(hs[1..])| == |host| + |DotJoin(hs)|
  {
    var dot: text, rest := [DOT], DotJoin(hs[1..]);
    assert DotJoin(hs) == dot + hs[0] + rest;
    hide DotJoin;
    Assoc(host, dot, hs[0], rest);
  }

  lemma Assoc(a: text, b: text, c: text, d: text)
    ensures a + (b + c + d) == (a + b + c) + d
  {
  }

  lemma PlaceWord(v: NameValue, s: text)
    requires v.parts == 1 && !v.invalid && HostWord(s) && |s| > 0 && |v.host| + 1 + |s| <= NAME_MAX
    ensures Place(v, s) == v.(host := v.host + [DOT] + s)
  {
    hide CaseEq;
  }

  /** Words of a dotted host name are joined in the host slot until the tail begins. */
  lemma {:induction false} SortHost(v: NameValue, items: seq<Item>, hs: seq<text>, ts: seq<text>)
    requires ItemsOk(items) && Labels(items) == hs + ts
    requires v.parts == 1 && !v.invalid && |ts| <= 3 && |v.host| + |DotJoin(hs)| <= NAME_MAX
    requires forall i :: 0 <= i < |hs| ==> HostWord(hs[i])
    requires forall i :: 0 <= i < |ts| ==> TailWord(ts[i])
    ensures var r := Fill(v, items);
            && r.parts == 1 + |ts| && r.host == v.host + DotJoin(hs) && r.sub == v.sub
            && (forall i :: 1 <= i < r.parts ==> Slot(r, i) == ts[i - 1])
    decreases |items|
  {
    if hs == [] {
      assert hs + ts == ts;
      SortTail(v, items, ts);
    } else {
      LabelsTail(items, hs + ts);
      assert items != [];
      assert (hs + ts)[0] == hs[0] && (hs + ts)[1..] == hs[1..] + ts;
      if items[0].Label? {
        assert HostWord(hs[0]);
        var w := Place(v, hs[0]);
        JoinMore(v.host, hs);
        PlaceWord(v, hs[0]);
        hide Place, HostWord, TailWord, Slot;
        SortHost(w, items[1..], hs[1..], ts);
      } else {
        SortHost(v, items[1..], hs, ts);
      }
    }
  }

  /** A name as mDNS uses it: host or instance labels, then type and protocol if any, then the domain. */
  predicate MdnsName(first: text, hs: seq<text>, ts: seq<text>) {
    && |first| > 0 && NulFree(first) && !CaseEq(first, SUB)
    && 1 <= |ts| <= 3 && |first| + |DotJoin(hs)| <= NAME_MAX
    && (forall i :: 0 <= i < |hs| ==> HostWord(hs[i]))
    && (forall i :: 0 <= i < |ts| ==> TailWord(ts[i]))
    && CaseEq(ts[|ts| - 1], LOCAL)
  }

  /** The labels in their slots, before they are moved. */
  lemma {:induction false} SortedSlots(items: seq<Item>, first: text, hs: seq<text>, ts: seq<text>)
    requires ItemsOk(items) && Labels(items) == [first] + hs + ts && MdnsName(first, hs, ts)
    ensures var raw := Fill(EMPTY, items);
            && raw.parts == 1 + |ts| && raw.host == first + DotJoin(hs) && !raw.sub
            && (forall i :: 1 <= i < raw.parts ==> Slot(raw, i) == ts[i - 1])
            && (|ts| == 1 ==> raw.proto == [])
    decreases |items|
  {
    hide Place, Slot, HostWord, TailWord, DotJoin, CaseEq;
    LabelsTail(items, [first] + hs + ts);
    BehindFirst(first, hs, ts);
    NoSlotBeyond(EMPTY, items);
    ThirdSlot(EMPTY);
    ThirdSlot(Fill(EMPTY, items));
    if items[0].Label? {
      PlaceFirst(first);
      SortHost(Place(EMPTY, first), items[1..], hs, ts);
    } else {
      SortedSlots(items[1..], first, hs, ts);
    }
  }

  lemma {:induction false} SortedInvalid(items: seq<Item>, first: text, hs: seq<text>, ts: seq<text>)
    requires ItemsOk(items) && Labels(items) == [first] + hs + ts && MdnsName(first, hs, ts)
    ensures items != [] && Fill(EMPTY, items).invalid == (|ts| == 3 && !items[|items| - 1].Label?)
    decreases |items|
  {
    hide Place, HostWord, TailWord, DotJoin, CaseEq;
    LabelsTail(items, [first] + hs + ts);
    BehindFirst(first, hs, ts);
    var rest := items[1..];
    hide Labels;
    if items[0].Label? {
      PlaceFirst(first);
      InvalidHost(Place(EMPTY, first), rest, hs, ts);
    } else {
      SortedInvalid(rest, first, hs, ts);
    }
    assert rest[|rest| - 1] == items[|items| - 1];
  }

  lemma BehindFirst(first: text, hs: seq<text>, ts: seq<text>)
    ensures ([first] + hs + ts)[1..] == hs + ts && ([first] + hs + ts)[0] == first
  {
    var one := [first];
    assert one + hs + ts == one + (hs + ts);
  }

  lemma ThirdSlot(v: NameValue)
    ensures Slot(v, 2) == v.proto
  {
  }

  lemma PlaceFirst(first: text)
    requires |first| > 0 && NulFree(first) && !CaseEq(first, SUB)
    ensures Place(EMPTY, first) == EMPTY.(host := first, parts := 1)
  {
  }

  /**
   What reading and arranging means for the names mDNS uses: the labels in front of the first
   `_type`, `_proto` or domain label are the host or instance name, joined by dots, and the labels
   behind them are the service type, the protocol and the domain, wherever pointers cut the name.
   A name with all four is marked invalid exactly when something follows its last label: a pointer
   to the empty name.
   */
  lemma SortedName(items: seq<Item>, first: text, hs: seq<text>, ts: seq<text>)
    requires ItemsOk(items) && Labels(items) == [first] + hs + ts && MdnsName(first, hs, ts)
    ensures items != []
    ensures var raw := Fill(EMPTY, items); var r := Arrange(raw);
            && !r.sub && raw.parts == 1 + |ts| && raw.invalid == (|ts| == 3 && !items[|items| - 1].Label?)
            && (!raw.invalid ==>
                  && !r.invalid && r.domain == ts[|ts| - 1]
                  && (|ts| == 3 ==> r.host == first + DotJoin(hs) && r.service == ts[0] && r.proto == ts[1])
                  && (|ts| == 2 ==> r.host == [] && r.service == first + DotJoin(hs) && r.proto == ts[0])
                  && (|ts| == 1 ==> r.host == first + DotJoin(hs) && r.service == [] && r.proto == []))
  {
    SortedSlots(items, first, hs, ts);
    SortedInvalid(items, first, hs, ts);
    hide Fill, DotJoin, HostWord, TailWord;
    var raw := Fill(EMPTY, items);
    assert Slot(raw, |ts|) == ts[|ts| - 1];
    assert |ts| >= 2 ==> Slot(raw, 1) == ts[0];
    assert |ts| == 3 ==> Slot(raw, 2) == ts[1];
  }
}
