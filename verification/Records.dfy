/**
 The record builders, on the packet buffer itself.  Each method also
 reports, as a ghost, whether no write was refused on its way; what a refused write leaves behind is
 not framed.
 */
module Records {
  import opened Bytes
  import opened NameWriter
  import opened Framing
  import Txt
  import opened Wire

  const SERVICES: text := [0x5F, 0x73, 0x65, 0x72, 0x76, 0x69, 0x63, 0x65, 0x73]
  const DNS_SD: text := [0x5F, 0x64, 0x6E, 0x73, 0x2D, 0x73, 0x64]
  const UDP: text := [0x5F, 0x75, 0x64, 0x70]

  function Class(flush: bool): nat { if flush then CLASS_FLUSH else CLASS_IN }

  /** A goodbye carries a lifetime of zero. */
  function Ttl(bye: bool, ttl: nat): nat { if bye then 0 else ttl }

  /** A name whose written length fits the octet the callers keep it in. */
  predicate Name(strings: seq<text>) {
    strings != [] && Labels(strings) && Size(strings) + 1 < 0x100
  }

  // ---------------------------------------------------------------- fixed fields

  method SetU16(packet: array<byte>, at: nat, v: nat)
    requires packet.Length == MAX + 1 && v < 0x10000
    modifies packet
    ensures at + 1 >= MAX ==> packet[..] == old(packet[..])
    ensures at + 1 < MAX ==> packet[..] == old(packet[..])[at := v / 0x100][at + 1 := v % 0x100]
  {
    if at + 1 >= MAX {
      return;
    }
    packet[at] := v / 0x100;
    packet[at + 1] := v % 0x100;
  }

  method PutU32(packet: array<byte>, index: nat, v: nat) returns (newIndex: nat, ret: nat)
    requires packet.Length == MAX + 1 && index <= MAX && v < 0x1_0000_0000
    modifies packet
    ensures AgreeBelow(old(packet[..]), packet[..], index)
    ensures index + 3 >= MAX ==> newIndex == index && ret == 0
    ensures index + 3 < MAX ==> newIndex == index + 4 && ret == 4 && U32At(packet[..], index) == v
  {
    hide U32At;
    if index + 3 >= MAX {
      return index, 0;
    }
    packet[index] := v / 0x100_0000;
    packet[index + 1] := v / 0x1_0000 % 0x100;
    packet[index + 2] := v / 0x100 % 0x100;
    packet[index + 3] := v % 0x100;
    U32Is(packet[..], index, v);
    return index + 4, 4;
  }

  lemma U32Is(mem: seq<byte>, at: nat, v: nat)
    requires at + 3 < |mem| && v < 0x1_0000_0000
    requires mem[at] == v / 0x100_0000 && mem[at + 1] == v / 0x1_0000 % 0x100
    requires mem[at + 2] == v / 0x100 % 0x100 && mem[at + 3] == v % 0x100
    ensures U32At(mem, at) == v
  {
    FirstOctet(v);
    ThirdOctet(v);
    LastOctet(v);
    U16Is(mem, at, v / 0x1_0000);
    U16Is(mem, at + 2, v % 0x1_0000);
    hide U16At;
  }

  lemma FirstOctet(v: nat)
    ensures v / 0x100_0000 == v / 0x1_0000 / 0x100
  {
  }

  lemma ThirdOctet(v: nat)
    ensures v / 0x100 % 0x100 == v % 0x1_0000 / 0x100
  {
    var q, r := v / 0x1_0000, v % 0x1_0000;
    var n, s := v / 0x100, r / 0x100;
    assert v == 0x1_0000 * q + r && r == 0x100 * s + r % 0x100;
    assert n == 0x100 * q + s;
    OctetIs(n, q, s);
  }

  lemma OctetIs(n: nat, k: nat, z: nat)
    requires n == 0x100 * k + z && z < 0x100
    ensures n % 0x100 == z
  {
  }

  lemma LastOctet(v: nat)
    ensures v % 0x100 == v % 0x1_0000 % 0x100
  {
  }

  lemma U16Is(mem: seq<byte>, at: nat, v: nat)
    requires at + 1 < |mem| && v < 0x1_0000 && mem[at] == v / 0x100 && mem[at + 1] == v % 0x100
    ensures U16At(mem, at) == v
  {
  }

  lemma U16Written(mem: seq<byte>, index: nat, v: nat)
    requires Buffer(mem) && index + 1 < MAX && v < 0x10000
    ensures var w := AppendU16(mem, index, v);
            w.ret == 2 && w.index == index + 2 && U16At(w.mem, index) == v && AgreeBelow(mem, w.mem, index)
  {
  }

  /** `_mdns_append_type`: the fixed fields, with a zero where the data length will go. */
  method PutType(packet: array<byte>, index: nat, kind: Kind) returns (newIndex: nat, ret: nat)
    requires packet.Length == MAX + 1 && index <= MAX
    requires kind.rtype < 0x10000 && kind.rclass < 0x10000 && kind.ttl < 0x1_0000_0000
    modifies packet
    ensures AgreeBelow(old(packet[..]), packet[..], index)
    ensures ret == 0 <==> index + 10 >= MAX
    ensures ret == 0 ==> newIndex == index
    ensures ret != 0 ==> ret == 10 && newIndex == index + 10 &&
                         KindAt(packet[..], index) == kind && U16At(packet[..], index + 8) == 0
  {
    if index + 10 >= MAX {
      return index, 0;
    }
    hide U16At, U32At, AppendU16;
    U16Written(packet[..], index, kind.rtype);
    var i, r := PutU16(packet, index, kind.rtype);
    ghost var m1 := packet[..];
    U16Written(m1, i, kind.rclass);
    i, r := PutU16(packet, i, kind.rclass);
    ghost var m2 := packet[..];
    i, r := PutU32(packet, i, kind.ttl);
    ghost var m3 := packet[..];
    U16Written(m3, i, 0);
    i, r := PutU16(packet, i, 0);
    FieldsKept(m1, m2, m3, packet[..], index);
    return i, 10;
  }

  /** Type, class and lifetime stay while the next field is written behind them. */
  lemma FieldsKept(m1: seq<byte>, m2: seq<byte>, m3: seq<byte>, m4: seq<byte>, at: nat)
    requires Buffer(m1) && Buffer(m2) && Buffer(m3) && Buffer(m4) && at + 10 < MAX
    requires AgreeBelow(m1, m2, at + 2) && AgreeBelow(m2, m3, at + 4) && AgreeBelow(m3, m4, at + 8)
    ensures U16At(m4, at) == U16At(m1, at) && U16At(m4, at + 2) == U16At(m2, at + 2)
    ensures U32At(m4, at + 4) == U32At(m3, at + 4)
  {
  }

  // ---------------------------------------------------------------- owner name and fixed fields

  ghost predicate HeadSpelled(before: seq<byte>, after: seq<byte>, from: nat, d: nat, owner: seq<text>, kind: Kind)
  {
    && Buffer(before) && Buffer(after) && from <= MAX && Strings(owner)
    && var w := AppendFqdn(before, from, owner);
    && w.whole && d == w.index + 10 <= MAX && AgreeBelow(w.mem, after, w.index)
    && KindAt(after, w.index) == kind && U16At(after, w.index + 8) == 0
  }

  /** The part every builder begins with; `ok` is false when a length of zero was seen. */
  method PutHead(packet: array<byte>, index: nat, owner: seq<text>, kind: Kind)
    returns (ok: bool, newIndex: nat, len: nat, ghost whole: bool)
    requires packet.Length == MAX + 1 && index <= MAX && Name(owner)
    requires kind.rtype < 0x10000 && kind.rclass < 0x10000 && kind.ttl < 0x1_0000_0000
    modifies packet
    ensures index <= newIndex <= MAX && AgreeBelow(old(packet[..]), packet[..], index)
    ensures whole ==> ok && HeadSpelled(old(packet[..]), packet[..], index, newIndex, owner, kind)
    ensures whole ==> len == newIndex - index && newIndex < MAX
    ensures ok ==> index + 10 <= newIndex < MAX
    ensures index + Size(owner) + 11 < MAX ==> whole && newIndex <= index + Size(owner) + 11
  {
    hide AppendFqdn;
    ghost var before := packet[..];
    ghost var w := AppendFqdn(before, index, owner);
    NameIsFramed(before, index, owner);
    if index + Size(owner) < MAX { NameFits(before, index, owner); }
    var i, r := PutFqdn(packet, index, owner);
    if r % 0x100 == 0 {
      return false, i, 0, false;
    }
    var t;
    newIndex, t := PutType(packet, i, kind);
    if t == 0 {
      return false, newIndex, 0, false;
    }
    return true, newIndex, r % 0x100 + t, w.whole;
  }

  lemma FinishRaw(before: seq<byte>, headed: seq<byte>, after: seq<byte>, from: nat, d: nat, upto: nat, r: Record)
    requires HeadSpelled(before, headed, from, d, r.owner, r.kind) && Strings(r.target) && !r.named
    requires Buffer(after) && AgreeBelow(headed, after, d - 2) && d <= upto <= MAX
    requires U16At(after, d - 2) == upto - d && after[d..upto] == r.prefix
    ensures Spelled(before, after, from, upto, r)
  {
    hide AppendFqdn;
  }

  lemma FinishNamed(before: seq<byte>, headed: seq<byte>, mid: seq<byte>, after: seq<byte>,
                    from: nat, h: nat, d: nat, upto: nat, r: Record)
    requires HeadSpelled(before, headed, from, h, r.owner, r.kind) && Strings(r.target) && r.named
    requires Buffer(mid) && Buffer(after) && AgreeBelow(headed, mid, h) && h <= d <= upto <= MAX
    requires d == h + |r.prefix| && mid[h..d] == r.prefix
    requires var w := AppendFqdn(mid, d, r.target);
             w.whole && w.index == upto && after == w.mem[h - 2 := (upto - h) / 0x100][h - 1 := (upto - h) % 0x100]
    ensures Spelled(before, after, from, upto, r)
  {
    hide AppendFqdn, KindAt, U16At;
    var n := h - 10;
    Patched(AppendFqdn(mid, d, r.target).mem, h - 2, upto - h);
    KindKept(headed, after, n);
    FieldKept(headed, mid, h - 2);
    assert TargetOver(mid, after, n, d, upto, r.target);
    assert after[h..d] == mid[h..d];
  }

  lemma Patched(mem: seq<byte>, at: nat, v: nat)
    requires at + 1 < |mem| && v < 0x10000
    ensures U16At(mem[at := v / 0x100][at + 1 := v % 0x100], at) == v
  {
  }

  lemma KindKept(a: seq<byte>, b: seq<byte>, n: nat)
    requires Buffer(a) && Buffer(b) && n + 10 <= MAX && AgreeOn(a, b, n, n + 8)
    ensures KindAt(a, n) == KindAt(b, n)
  {
  }

  /** A field that later writes left alone. */
  lemma FieldKept(a: seq<byte>, b: seq<byte>, at: nat)
    requires |a| == |b| && at + 1 < |a| && a[at] == b[at] && a[at + 1] == b[at + 1]
    ensures U16At(a, at) == U16At(b, at)
  {
  }

  /** The data length, once it is known, in front of the data. */
  method PutLength(packet: array<byte>, h: nat, n: nat)
    requires packet.Length == MAX + 1 && 2 <= h < MAX && n < 0x10000
    modifies packet
    ensures U16At(packet[..], h - 2) == n
    ensures AgreeBelow(old(packet[..]), packet[..], h - 2) && AgreeOn(old(packet[..]), packet[..], h, MAX + 1)
  {
    ghost var before := packet[..];
    SetU16(packet, h - 2, n);
    Patched(before, h - 2, n);
  }

  lemma SliceKept(a: seq<byte>, b: seq<byte>, low: nat, high: nat)
    requires low <= high <= |a| && AgreeOn(a, b, low, high)
    ensures a[low..high] == b[low..high]
  {
  }

  // ---------------------------------------------------------------- the builders

  /** The record `_mdns_append_ptr_record` writes; it never asks for a cache flush. */
  function PtrRecord(instance: text, service: text, proto: text, bye: bool): Record {
    Record([service, proto, LOCAL], Kind(TYPE_PTR, CLASS_IN, Ttl(bye, LONG_TTL)), [],
           [instance, service, proto, LOCAL], true)
  }

  function SubtypeRecord(instance: text, subtype: text, service: text, proto: text, bye: bool): Record {
    Record([subtype, SUB, service, proto, LOCAL], Kind(TYPE_PTR, CLASS_IN, Ttl(bye, LONG_TTL)), [],
           [instance, service, proto, LOCAL], true)
  }

  /** The service type enumeration record keeps its lifetime in a goodbye. */
  function SdptrRecord(service: text, proto: text, flush: bool): Record {
    Record([SERVICES, DNS_SD, UDP, LOCAL], Kind(TYPE_PTR, Class(flush), LONG_TTL), [],
           [service, proto, LOCAL], true)
  }

  function U16Bytes(v: nat): (r: seq<byte>)
    requires v < 0x10000
  {
    [v / 0x100, v % 0x100]
  }

  function SrvRecord(s: Service, host: text, flush: bool, bye: bool): Record
    requires ServiceOk(s)
  {
    Record([s.instance, s.service, s.proto, LOCAL], Kind(TYPE_SRV, Class(flush), Ttl(bye, HOST_TTL)),
           U16Bytes(s.priority) + U16Bytes(s.weight) + U16Bytes(s.port), [host, LOCAL], true)
  }

  /** No entries are sent as a single zero octet. */
  function TxtData(es: seq<Txt.Entry>): seq<byte> {
    if es == [] then [0] else Txt.Encode(es)
  }

  function TxtRecord(s: Service, flush: bool, bye: bool): Record {
    Record([s.instance, s.service, s.proto, LOCAL], Kind(TYPE_TXT, Class(flush), Ttl(bye, LONG_TTL)),
           TxtData(s.txt), [], false)
  }

  function AddressRecord(host: text, rtype: nat, address: seq<byte>, flush: bool, bye: bool): Record {
    Record([host, LOCAL], Kind(rtype, Class(flush), Ttl(bye, HOST_TTL)), address, [], false)
  }

  /** The host an SRV record points to: the one of the service, or the responder's own. */
  function Target(s: Service, own: text): text {
    if s.hostname.Some? then s.hostname.value else own
  }

  /** `mdns_service_t`, with the instance name that is sent (its own or the default one). */
  datatype Service = Service(instance: text, service: text, proto: text, hostname: Txt.Option<text>,
                             priority: nat, weight: nat, port: nat,
                             txt: seq<Txt.Entry>, subtypes: seq<text>)

  predicate ServiceOk(s: Service) {
    && Name([s.instance, s.service, s.proto, LOCAL]) && (s.hostname.Some? ==> Name([s.hostname.value, LOCAL]))
    && s.priority < 0x10000 && s.weight < 0x10000 && s.port < 0x10000
    && (forall i :: 0 <= i < |s.subtypes| ==> Name([s.subtypes[i], SUB, s.service, s.proto, LOCAL]))
  }

  /** The common tail of the records whose data is a name. */
  method PutTarget(packet: array<byte>, h: nat, index: nat, target: seq<text>, more: nat)
    returns (newIndex: nat, len: nat, ghost whole: bool)
    requires packet.Length == MAX + 1 && 2 <= h <= index <= MAX && Name(target) && more <= 6
    modifies packet
    ensures index <= newIndex <= MAX && AgreeBelow(old(packet[..]), packet[..], h - 2)
    ensures var w := AppendFqdn(old(packet[..]), index, target);
            && newIndex == w.index && whole == w.whole
            && (whole ==> len == newIndex - index > 0)
            && (whole && h < MAX ==>
                  packet[..] == w.mem[h - 2 := (len + more) / 0x100][h - 1 := (len + more) % 0x100])
    ensures index + Size(target) < MAX ==> whole && newIndex <= index + Size(target) + 1
  {
    hide AppendFqdn;
    ghost var before := packet[..];
    ghost var w := AppendFqdn(before, index, target);
    NameIsFramed(before, index, target);
    if index + Size(target) < MAX { NameFits(before, index, target); }
    var r;
    newIndex, r := PutFqdn(packet, index, target);
    whole := w.whole;
    if r % 0x100 == 0 {
      return newIndex, 0, whole;
    }
    SetU16(packet, h - 2, r % 0x100 + more);
    len := r % 0x100;
  }

  method PutPtrRecord(packet: array<byte>, index: nat, instance: text, service: text, proto: text, bye: bool)
    returns (newIndex: nat, len: nat, ghost whole: bool)
    requires packet.Length == MAX + 1 && index <= MAX
    requires Name([service, proto, LOCAL]) && Name([instance, service, proto, LOCAL])
    modifies packet
    ensures index <= newIndex <= MAX && AgreeBelow(old(packet[..]), packet[..], index)
    ensures whole ==> len == newIndex - index > 0
    ensures whole ==> Spelled(old(packet[..]), packet[..], index, newIndex, PtrRecord(instance, service, proto, bye))
    ensures var r := PtrRecord(instance, service, proto, bye);
            index + Bound(r) < MAX ==> whole && newIndex < index + Bound(r)
  {
    newIndex, len, whole := PutNamed(packet, index, PtrRecord(instance, service, proto, bye));
  }

  /** Octets a record takes uncompressed, and one more. */
  function Bound(r: Record): nat {
    Size(r.owner) + 11 + |r.prefix| + (if r.named then Size(r.target) + 1 else 0) + 1
  }

  /** The builders of PTR records: owner, fixed fields, and a name whose length is patched in. */
  method PutNamed(packet: array<byte>, index: nat, r: Record)
    returns (newIndex: nat, len: nat, ghost whole: bool)
    requires packet.Length == MAX + 1 && index <= MAX && Name(r.owner) && Name(r.target)
    requires r.named && r.prefix == [] && r.kind.rtype < 0x10000 && r.kind.rclass < 0x10000 && r.kind.ttl <= LONG_TTL
    modifies packet
    ensures index <= newIndex <= MAX && AgreeBelow(old(packet[..]), packet[..], index)
    ensures whole ==> len == newIndex - index > 0 && Spelled(old(packet[..]), packet[..], index, newIndex, r)
    ensures index + Bound(r) < MAX ==> whole && newIndex < index + Bound(r)
  {
    hide AppendFqdn, Spelled;
    ghost var before := packet[..];
    var ok, h, headLen, hw := PutHead(packet, index, r.owner, r.kind);
    if !ok {
      return h, 0, false;
    }
    ghost var headed := packet[..];
    var t;
    newIndex, t, whole := PutTarget(packet, h, h, r.target, 0);
    whole := whole && hw;
    if t == 0 {
      return newIndex, 0, whole;
    }
    if whole {
      FinishNamed(before, headed, headed, packet[..], index, h, h, newIndex, r);
    }
    len := headLen + t;
  }

  method PutSubtypePtrRecord(packet: array<byte>, index: nat, instance: text, subtype: text, service: text,
                             proto: text, bye: bool)
    returns (newIndex: nat, len: nat, ghost whole: bool)
    requires packet.Length == MAX + 1 && index <= MAX
    requires Name([subtype, SUB, service, proto, LOCAL]) && Name([instance, service, proto, LOCAL])
    modifies packet
    ensures index <= newIndex <= MAX && AgreeBelow(old(packet[..]), packet[..], index)
    ensures whole ==> len == newIndex - index > 0
    ensures var r := SubtypeRecord(instance, subtype, service, proto, bye);
            && (whole ==> Spelled(old(packet[..]), packet[..], index, newIndex, r))
            && (index + Bound(r) < MAX ==> whole && newIndex < index + Bound(r))
  {
    newIndex, len, whole := PutNamed(packet, index, SubtypeRecord(instance, subtype, service, proto, bye));
  }

  method PutSdptrRecord(packet: array<byte>, index: nat, s: Service, flush: bool)
    returns (newIndex: nat, len: nat, ghost whole: bool)
    requires packet.Length == MAX + 1 && index <= MAX && ServiceOk(s)
    modifies packet
    ensures index <= newIndex <= MAX && AgreeBelow(old(packet[..]), packet[..], index)
    ensures whole ==> len == newIndex - index > 0
    ensures var r := SdptrRecord(s.service, s.proto, flush);
            && (whole ==> Spelled(old(packet[..]), packet[..], index, newIndex, r))
            && (index + Bound(r) < MAX ==> whole && newIndex < index + Bound(r))
  {
    ShorterName(s.instance, [s.service, s.proto, LOCAL]);
    SdOwner();
    newIndex, len, whole := PutNamed(packet, index, SdptrRecord(s.service, s.proto, flush));
  }

  lemma ShorterName(first: text, rest: seq<text>)
    requires Name([first] + rest) && rest != []
    ensures Name(rest)
  {
    assert ([first] + rest)[1..] == rest;
    forall i | 0 <= i < |rest| ensures 1 <= |rest[i]| <= 63 { assert rest[i] == ([first] + rest)[i + 1]; }
  }

  lemma SdOwner()
    ensures Name([SERVICES, DNS_SD, UDP, LOCAL])
  {
    var names := [SERVICES, DNS_SD, UDP, LOCAL];
    assert names[1..] == [DNS_SD, UDP, LOCAL] && [DNS_SD, UDP, LOCAL][1..] == [UDP, LOCAL] &&
        [UDP, LOCAL][1..] == [LOCAL];
    assert Size([LOCAL]) == 6 && Size([UDP, LOCAL]) == 11 && Size([DNS_SD, UDP, LOCAL]) == 19;
  }

  method PutPriorities(packet: array<byte>, index: nat, s: Service) returns (newIndex: nat, n: nat)
    requires packet.Length == MAX + 1 && index <= MAX && ServiceOk(s)
    modifies packet
    ensures index <= newIndex <= MAX && AgreeBelow(old(packet[..]), packet[..], index)
    ensures n == 6 ==> newIndex == index + 6 &&
                       packet[index..newIndex] == U16Bytes(s.priority) + U16Bytes(s.weight) + U16Bytes(s.port)
    ensures index + 6 <= MAX ==> n == 6
  {
    var n1, n2, n3;
    newIndex, n1 := PutU16(packet, index, s.priority);
    newIndex, n2 := PutU16(packet, newIndex, s.weight);
    newIndex, n3 := PutU16(packet, newIndex, s.port);
    n := n1 + n2 + n3;
  }

  method PutSrvRecord(packet: array<byte>, index: nat, s: Service, own: text, flush: bool, bye: bool)
    returns (newIndex: nat, len: nat, ghost whole: bool)
    requires packet.Length == MAX + 1 && index <= MAX && ServiceOk(s) && (own != [] ==> Name([own, LOCAL]))
    modifies packet
    ensures index <= newIndex <= MAX && AgreeBelow(old(packet[..]), packet[..], index)
    ensures whole ==> len == newIndex - index > 0 && Target(s, own) != []
    ensures var r := SrvRecord(s, Target(s, own), flush, bye);
            && (whole ==> Spelled(old(packet[..]), packet[..], index, newIndex, r))
            && (index + Bound(r) < MAX && Target(s, own) != [] ==> whole && newIndex < index + Bound(r))
  {
    hide AppendFqdn, Spelled, Size, U16At, KindAt;
    var host := Target(s, own);
    ghost var r := SrvRecord(s, host, flush, bye);
    ghost var before := packet[..];
    var ok, h, headLen, hw := PutHead(packet, index, [s.instance, s.service, s.proto, LOCAL],
                                      Kind(TYPE_SRV, Class(flush), Ttl(bye, HOST_TTL)));
    if !ok {
      return h, 0, false;
    }
    ghost var headed := packet[..];
    var i, n := PutPriorities(packet, h, s);
    if n != 6 {
      return i, 0, false;
    }
    if host == [] {
      return i, 0, false;
    }
    ghost var mid := packet[..];
    assert mid[h..i] == r.prefix;
    var t;
    newIndex, t, whole := PutTarget(packet, h, i, [host, LOCAL], 6);
    whole := whole && hw;
    if t == 0 {
      return newIndex, 0, whole;
    }
    if whole {
      FinishNamed(before, headed, mid, packet[..], index, h, i, newIndex, r);
    }
    len := headLen + t + 6;
  }

  // ---------------------------------------------------------------- raw data

  method CopyIn(packet: array<byte>, at: nat, s: seq<byte>)
    requires at + |s| <= packet.Length
    modifies packet
    ensures packet[..] == Copy(old(packet[..]), at, s)
  {
    ghost var start := packet[..];
    var i := 0;
    while i < |s|
      invariant i <= |s|
      invariant packet[..] == Copy(start, at, s[..i])
    {
      packet[at + i] := s[i];
      i := i + 1;
    }
    assert s[..|s|] == s;
  }

  /** `append_one_txt_record_entry`: zero when the entry does not fit. */
  method PutTxtEntry(packet: array<byte>, index: nat, e: Txt.Entry) returns (newIndex: nat, l: nat)
    requires packet.Length == MAX + 1 && index <= MAX
    modifies packet
    ensures AgreeBelow(old(packet[..]), packet[..], index)
    ensures if index + Txt.EntryLen(e) + 1 >= MAX then l == 0 && newIndex == index
            else l == 1 + Txt.EntryLen(e) && newIndex == index + l && packet[index..newIndex] == Txt.EntryBytes(e)
  {
    var len := Txt.EntryLen(e);
    if index + len + 1 >= MAX {
      return index, 0;
    }
    CopyIn(packet, index, [len % 0x100] + e.key);
    if e.value.Some? {
      CopyIn(packet, index + 1 + |e.key|, [EQUALS] + e.value.value);
    }
    return index + 1 + len, len + 1;
  }

  lemma {:induction false} EncodeSnoc(es: seq<Txt.Entry>, e: Txt.Entry)
    ensures Txt.Encode(es + [e]) == Txt.Encode(es) + Txt.EntryBytes(e)
  {
    if es == [] {
      assert [] + [e] == [e];
      assert Txt.Encode([e][1..]) == [];
    } else {
      assert (es + [e])[1..] == es[1..] + [e];
      EncodeSnoc(es[1..], e);
    }
  }

  /** The entries of a TXT record; `dataLen` is zero when one of them did not fit. */
  method PutTxtEntries(packet: array<byte>, index: nat, es: seq<Txt.Entry>)
    returns (fits: bool, newIndex: nat, dataLen: nat)
    requires packet.Length == MAX + 1 && index <= MAX
    modifies packet
    ensures index <= newIndex <= MAX && AgreeBelow(old(packet[..]), packet[..], index)
    ensures fits ==> packet[index..newIndex] == Txt.Encode(es) && dataLen == newIndex - index
    ensures index + |Txt.Encode(es)| < MAX ==> fits
  {
    newIndex, dataLen := index, 0;
    assert Txt.Encode(es[..0]) == [];
    for i := 0 to |es|
      invariant index <= newIndex <= MAX && dataLen == newIndex - index
      invariant AgreeBelow(old(packet[..]), packet[..], index)
      invariant packet[index..newIndex] == Txt.Encode(es[..i])
    {
      ghost var was := packet[..];
      ghost var at := newIndex;
      assert es[..i + 1] == es[..i] + [es[i]];
      EncodeSnoc(es[..i], es[i]);
      EncodePrefix(es, i + 1);
      var l;
      newIndex, l := PutTxtEntry(packet, newIndex, es[i]);
      if l == 0 {
        return false, newIndex, 0;
      }
      dataLen := dataLen + l;
      assert packet[index..newIndex] == was[index..at] + packet[at..newIndex];
    }
    assert es[..|es|] == es;
    fits := true;
  }

  lemma {:induction false} EncodePrefix(es: seq<Txt.Entry>, n: nat)
    requires n <= |es|
    ensures |Txt.Encode(es[..n])| <= |Txt.Encode(es)|
  {
    if n > 0 {
      assert es[..n][1..] == es[1..][..n - 1];
      EncodePrefix(es[1..], n - 1);
    }
  }

  method PutTxtRecord(packet: array<byte>, index: nat, s: Service, flush: bool, bye: bool)
    returns (newIndex: nat, len: nat, ghost whole: bool)
    requires packet.Length == MAX + 1 && index <= MAX && ServiceOk(s)
    modifies packet
    ensures index <= newIndex <= MAX && AgreeBelow(old(packet[..]), packet[..], index)
    ensures whole ==> len == newIndex - index > 0
    ensures var r := TxtRecord(s, flush, bye);
            && (whole ==> Spelled(old(packet[..]), packet[..], index, newIndex, r))
            && (index + Bound(r) < MAX ==> whole && newIndex < index + Bound(r))
  {
    hide AppendFqdn, Spelled, TxtData, Size, U16At, KindAt;
    ghost var r := TxtRecord(s, flush, bye);
    ghost var before := packet[..];
    var ok, h, headLen, hw := PutHead(packet, index, [s.instance, s.service, s.proto, LOCAL],
                                      Kind(TYPE_TXT, Class(flush), Ttl(bye, LONG_TTL)));
    if !ok {
      return h, 0, false;
    }
    ghost var headed := packet[..];
    var fits, dataLen;
    fits, newIndex, dataLen := PutTxtData(packet, h, s.txt);
    if !fits {
      return newIndex, 0, false;
    }
    ghost var mid := packet[..];
    PutLength(packet, h, dataLen);
    len := headLen + dataLen;
    whole := hw;
    if whole {
      SliceKept(mid, packet[..], h, newIndex);
      FinishRaw(before, headed, packet[..], index, h, newIndex, r);
    }
  }

  /** The data of a TXT record. */
  method PutTxtData(packet: array<byte>, index: nat, es: seq<Txt.Entry>)
    returns (fits: bool, newIndex: nat, dataLen: nat)
    requires packet.Length == MAX + 1 && index < MAX
    modifies packet
    ensures index <= newIndex <= MAX && AgreeBelow(old(packet[..]), packet[..], index)
    ensures fits ==> packet[..][index..newIndex] == TxtData(es) && dataLen == newIndex - index
    ensures index + |TxtData(es)| < MAX ==> fits
  {
    fits, newIndex, dataLen := PutTxtEntries(packet, index, es);
    EmptyTxt(es);
    if fits {
      assert packet[..][index..newIndex] == packet[index..newIndex];
      if dataLen == 0 {
        dataLen := 1;
        packet[newIndex] := 0;
        newIndex := newIndex + 1;
        assert packet[..][index..newIndex] == [0];
      }
    }
  }

  lemma EmptyTxt(es: seq<Txt.Entry>)
    ensures Txt.Encode(es) == [] <==> es == []
  {
  }

  method PutARecord(packet: array<byte>, index: nat, host: text, ip: seq<byte>, flush: bool, bye: bool)
    returns (newIndex: nat, len: nat, ghost whole: bool)
    requires packet.Length == MAX + 1 && index <= MAX && Name([host, LOCAL]) && |ip| == 4
    modifies packet
    ensures index <= newIndex <= MAX && AgreeBelow(old(packet[..]), packet[..], index)
    ensures whole ==> len == newIndex - index > 0
    ensures var r := AddressRecord(host, TYPE_A, ip, flush, bye);
            && (whole ==> Spelled(old(packet[..]), packet[..], index, newIndex, r))
            && (index + Bound(r) < MAX ==> whole && newIndex < index + Bound(r))
  {
    hide AppendFqdn, Spelled;
    ghost var r := AddressRecord(host, TYPE_A, ip, flush, bye);
    ghost var before := packet[..];
    var ok, h, headLen, hw := PutHead(packet, index, [host, LOCAL], Kind(TYPE_A, Class(flush), Ttl(bye, HOST_TTL)));
    if !ok {
      return h, 0, false;
    }
    ghost var headed := packet[..];
    if h + 3 >= MAX {
      return h, 0, false;
    }
    CopyIn(packet, h, ip);
    newIndex := h + 4;
    ghost var mid := packet[..];
    PutLength(packet, h, 4);
    len := headLen + 4;
    whole := hw;
    if whole {
      assert mid[h..newIndex] == ip;
      SliceKept(mid, packet[..], h, newIndex);
      FinishRaw(before, headed, packet[..], index, h, newIndex, r);
    }
  }

  method PutAaaaRecord(packet: array<byte>, index: nat, host: text, ip: seq<byte>, flush: bool, bye: bool)
    returns (newIndex: nat, len: nat, ghost whole: bool)
    requires packet.Length == MAX + 1 && index <= MAX && Name([host, LOCAL]) && |ip| == 16
    modifies packet
    ensures index <= newIndex <= MAX && AgreeBelow(old(packet[..]), packet[..], index)
    ensures whole ==> len == newIndex - index > 0
    ensures var r := AddressRecord(host, TYPE_AAAA, ip, flush, bye);
            && (whole ==> Spelled(old(packet[..]), packet[..], index, newIndex, r))
            && (index + Bound(r) < MAX ==> whole && newIndex < index + Bound(r))
  {
    hide AppendFqdn, Spelled;
    ghost var r := AddressRecord(host, TYPE_AAAA, ip, flush, bye);
    ghost var before := packet[..];
    var ok, h, headLen, hw := PutHead(packet, index, [host, LOCAL], Kind(TYPE_AAAA, Class(flush), Ttl(bye, HOST_TTL)));
    if !ok {
      return h, 0, false;
    }
    ghost var headed := packet[..];
    if h + 16 > MAX {
      return h, 0, false;
    }
    CopyIn(packet, h, ip);
    newIndex := h + 16;
    ghost var mid := packet[..];
    PutLength(packet, h, 16);
    len := headLen + 16;
    whole := hw;
    if whole {
      assert mid[h..newIndex] == ip;
      SliceKept(mid, packet[..], h, newIndex);
      FinishRaw(before, headed, packet[..], index, h, newIndex, r);
    }
  }
}
