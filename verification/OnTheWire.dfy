/**
 What a receiver reads in the packet that is sent: names that are followed through their pointers, fixed
 fields, and data, record by record from the counts in the header; and what that says about services and
 hosts.
 */
module OnTheWire {
  import opened Bytes
  import opened Lists
  import opened Wire
  import opened NameWriter
  import opened Framing
  import opened Records
  import opened RoundTrip = NameRoundTrip
  import opened ReadBack
  import opened Targets
  import Dispatch
  import NameReader
  import Txt

  // ---------------------------------------------------------------- one record, as it is read

  /** The offset behind the record at `pos`, whatever it is, by its stored data length, or -1. */
  function Hop(mem: seq<byte>, pos: nat): (r: int)
    requires Buffer(mem)
    ensures r == -1 || pos < r <= MAX
  {
    var n := SkipName(mem, pos);
    if n < 0 || n + 10 > MAX || n + 10 + U16At(mem, n + 8) > MAX then -1 else n + 10 + U16At(mem, n + 8)
  }

  /** The offset of record number `n` of those that begin at `pos`, or -1. */
  function Hops(mem: seq<byte>, pos: nat, n: nat): (r: int)
    requires Buffer(mem)
    ensures r == -1 || pos <= r
  {
    if n == 0 then pos
    else
      var at := Hops(mem, pos, n - 1);
      if at < 0 then -1 else Hop(mem, at)
  }

  /**
   The record at `at`: its owner name and the name its data end in, if any, read through all pointers, its
   type, class and lifetime, and the octets of its data in front of that name.
   */
  predicate Carries(mem: seq<byte>, at: nat, owner: seq<text>, rtype: nat, rclass: nat, ttl: nat,
                    octets: seq<byte>, target: seq<text>)
    requires Buffer(mem)
  {
    var n := SkipName(mem, at);
    && n >= 0 && ReadsAs(mem, at, at, owner) && Hop(mem, at) >= 0
    && U16At(mem, n) == rtype && U16At(mem, n + 2) == rclass && U32At(mem, n + 4) == ttl
    && var d := n + 10 + |octets|;
       && d <= Hop(mem, at) && mem[n + 10..d] == octets
       && if target == [] then d == Hop(mem, at)
          else ReadsAs(mem, d, d, target) && NameReader.Expand(mem, d, d, MAX).next == Hop(mem, at)
  }

  /** The record at `at` is `r`. */
  predicate Reads(mem: seq<byte>, at: nat, r: Record)
    requires Buffer(mem)
  {
    Carries(mem, at, r.owner, r.kind.rtype, r.kind.rclass, r.kind.ttl, r.prefix, if r.named then r.target else [])
  }

  /** A record laid down with names that read back whatever the header holds. */
  ghost predicate Sound(before: seq<byte>, after: seq<byte>, from: nat, upto: nat, r: Record) {
    && Spelled(before, after, from, upto, r) && Good(before, from, r.owner)
    && (r.named ==> exists mid: seq<byte> :: TargetGood(mid, after, AppendFqdn(before, from, r.owner).index, upto, r))
  }

  /** The names of the record are of its kind. */
  predicate WellMade(r: Record) {
    Labels(r.owner) && Labels(r.target) && (if r.named then NamesTarget(r) && r.target != [] else r.target == [])
  }

  lemma OwnerEnds(before: seq<byte>, after: seq<byte>, from: nat, upto: nat, r: Record, later: seq<byte>)
    requires Spelled(before, after, from, upto, r) && WellMade(r)
    requires Buffer(later) && AgreeOn(after, later, HEAD_LEN, upto) && HEAD_LEN <= from
    ensures var n := AppendFqdn(before, from, r.owner).index;
            && n + 10 + |r.prefix| <= upto && SkipName(later, from) == n && KindAt(later, n) == r.kind
            && U16At(later, n + 8) == upto - n - 10 && KindAt(after, n) == r.kind
            && later[n + 10..n + 10 + |r.prefix|] == r.prefix
            && (!r.named ==> n + 10 + |r.prefix| == upto)
  {
    hide AppendFqdn, SpelledTarget, TargetOver, NamesTarget;
    NameIsFramed(before, from, r.owner);
    var w := AppendFqdn(before, from, r.owner);
    SkipNameFrame(w.mem, later, from);
    hide SkipName;
    KindKept(after, later, w.index);
    FieldKept(after, later, w.index + 8);
    SliceKept(after, later, w.index + 10, w.index + 10 + |r.prefix|);
  }

  /** Such a record is read, in the packet that is sent, as what was laid down. */
  lemma SoundReads(before: seq<byte>, after: seq<byte>, from: nat, upto: nat, r: Record, later: seq<byte>)
    requires Sound(before, after, from, upto, r) && WellMade(r)
    requires Buffer(later) && AgreeOn(after, later, HEAD_LEN, upto) && HEAD_LEN <= from
    ensures Reads(later, from, r) && Hop(later, from) == upto
  {
    hide AppendFqdn, Spelled, Good, ReadsAs, NameReader.Expand, SkipName, TargetGood, NamesTarget, KindAt, U16At;
    hide Reads, Hop, Labels;
    SpelledStrings(before, after, from, upto, r);
    OwnerEnds(before, after, from, upto, r, later);
    Dispatch.SpelledBounds(before, after, from, upto, r);
    OwnerReadsBack(before, after, from, upto, r, later);
    var n := AppendFqdn(before, from, r.owner).index;
    if r.named {
      var mid :| TargetGood(mid, after, n, upto, r);
      TargetReadsBack(mid, after, n, upto, r, later);
    }
    PartsRead(later, from, n, upto, r);
  }

  lemma SpelledStrings(before: seq<byte>, after: seq<byte>, from: nat, upto: nat, r: Record)
    requires Spelled(before, after, from, upto, r)
    ensures Buffer(before) && from <= MAX && Strings(r.owner)
  {
  }

  lemma PartsRead(mem: seq<byte>, at: nat, n: nat, upto: nat, r: Record)
    requires Buffer(mem) && n + 10 + |r.prefix| <= upto <= MAX
    requires SkipName(mem, at) == n && ReadsAs(mem, at, at, r.owner)
    requires KindAt(mem, n) == r.kind && U16At(mem, n + 8) == upto - n - 10
    requires mem[n + 10..n + 10 + |r.prefix|] == r.prefix
    requires var d := n + 10 + |r.prefix|;
             if r.named then
               r.target != [] && ReadsAs(mem, d, d, r.target) && NameReader.Expand(mem, d, d, MAX).next == upto
             else d == upto
    ensures Reads(mem, at, r) && Hop(mem, at) == upto
  {
    hide ReadsAs, NameReader.Expand, SkipName, U16At, U32At;
  }

  // ---------------------------------------------------------------- a run of records

  ghost predicate SoundAll(before: seq<byte>, after: seq<byte>, from: nat, upto: nat, rs: seq<Record>)
    decreases |rs|
  {
    if rs == [] then Buffer(before) && after == before && upto == from <= MAX
    else exists mid: seq<byte>, m: nat :: SoundBehind(before, mid, after, from, m, upto, rs)
  }

  ghost predicate SoundBehind(before: seq<byte>, mid: seq<byte>, after: seq<byte>, from: nat, m: nat, upto: nat,
                              rs: seq<Record>)
    requires rs != []
    decreases |rs|, 0
  {
    SoundAll(before, mid, from, m, rs[..|rs| - 1]) && Sound(mid, after, m, upto, rs[|rs| - 1])
  }

  predicate AllWellMade(rs: seq<Record>) {
    forall i :: 0 <= i < |rs| ==> WellMade(rs[i])
  }

  lemma {:induction false} SoundIsSpelled(before: seq<byte>, after: seq<byte>, from: nat, upto: nat, rs: seq<Record>)
    requires SoundAll(before, after, from, upto, rs)
    ensures Dispatch.SpelledAll(before, after, from, upto, rs)
    decreases |rs|
  {
    hide Spelled, Good, TargetGood;
    if rs != [] {
      var mid, m :| SoundBehind(before, mid, after, from, m, upto, rs);
      SoundIsSpelled(before, mid, from, m, rs[..|rs| - 1]);
      assert Dispatch.Behind(before, mid, after, from, m, upto, rs);
    }
  }

  lemma LabelledRun(rs: seq<Record>)
    requires AllWellMade(rs)
    ensures Dispatch.RecordsOk(rs)
  {
  }

  /** Record number `k` of those that begin at `from` is `rs[k]`, for every `k`, and they end at `upto`. */
  predicate AllRead(mem: seq<byte>, from: nat, upto: nat, rs: seq<Record>)
    requires Buffer(mem)
  {
    && Hops(mem, from, |rs|) == upto
    && forall k :: 0 <= k < |rs| ==> Hops(mem, from, k) >= 0 && Reads(mem, Hops(mem, from, k), rs[k])
  }

  lemma OneMoreRead(mem: seq<byte>, from: nat, m: nat, upto: nat, rs: seq<Record>)
    requires Buffer(mem) && rs != [] && AllRead(mem, from, m, rs[..|rs| - 1])
    requires Reads(mem, m, rs[|rs| - 1]) && Hop(mem, m) == upto
    ensures AllRead(mem, from, upto, rs)
  {
    hide Reads, Hop;
    var front := rs[..|rs| - 1];
    forall k | 0 <= k < |rs| ensures Hops(mem, from, k) >= 0 && Reads(mem, Hops(mem, from, k), rs[k]) {
      if k < |front| { assert front[k] == rs[k]; }
    }
  }

  lemma NoneRead(mem: seq<byte>, from: nat)
    requires Buffer(mem)
    ensures AllRead(mem, from, from, [])
  {
  }

  /** Every record of the run is read where the receiver comes to it. */
  lemma {:induction false} RunReads(before: seq<byte>, after: seq<byte>, from: nat, upto: nat, rs: seq<Record>,
                                    mem: seq<byte>)
    requires SoundAll(before, after, from, upto, rs) && AllWellMade(rs) && HEAD_LEN <= from
    requires Buffer(mem) && AgreeOn(after, mem, HEAD_LEN, upto)
    ensures AllRead(mem, from, upto, rs)
    decreases |rs|
  {
    hide Sound, WellMade, Reads, Hop, AllRead;
    if rs != [] {
      var last, front := rs[|rs| - 1], rs[..|rs| - 1];
      var mid: seq<byte>, m: nat :| SoundBehind(before, mid, after, from, m, upto, rs);
      FrontFrames(before, mid, from, m, front);
      LastFrames(mid, after, m, upto, last);
      hide SoundAll;
      Kept(mid, after, mem, m, upto);
      assert AllWellMade(front) && WellMade(last);
      hide AgreeOn, AgreeBelow, AllWellMade;
      RunReads(before, mid, from, m, front, mem);
      SoundReads(mid, after, m, upto, last, mem);
      OneMoreRead(mem, from, m, upto, rs);
    } else {
      NoneRead(mem, from);
    }
  }

  lemma FrontFrames(before: seq<byte>, after: seq<byte>, from: nat, upto: nat, rs: seq<Record>)
    requires SoundAll(before, after, from, upto, rs) && AllWellMade(rs)
    ensures Buffer(after) && from <= upto <= MAX
  {
    SoundIsSpelled(before, after, from, upto, rs);
    LabelledRun(rs);
    hide SoundAll, Dispatch.SpelledAll, WalkRecords;
    Dispatch.SpelledWalks(before, after, from, upto, rs);
  }

  lemma LastFrames(before: seq<byte>, after: seq<byte>, from: nat, upto: nat, r: Record)
    requires Sound(before, after, from, upto, r) && WellMade(r)
    ensures Buffer(before) && Buffer(after) && from <= upto <= MAX && AgreeBelow(before, after, from)
  {
    hide Good, TargetGood, NamesTarget;
    SpelledIsFramed(before, after, from, upto, r);
    hide Spelled;
    Dispatch.SpelledBounds(before, after, from, upto, r);
  }

  // ---------------------------------------------------------------- what records say

  /** What a record tells a receiver. A pointer leads from a service type, or a subtype of it, to an instance. */
  datatype Resource =
    | Pointer(instance: text, service: text, proto: text, bye: bool)
    | SubPointer(subtype: text, instance: text, service: text, proto: text, bye: bool)
    | TypePointer(service: text, proto: text, flush: bool)
    | Location(instance: text, service: text, proto: text, priority: nat, weight: nat, port: nat, host: text,
               flush: bool, bye: bool)
    | Info(instance: text, service: text, proto: text, entries: seq<Txt.Entry>, flush: bool, bye: bool)
    | AddressOf(host: text, octets: seq<byte>, flush: bool, bye: bool)

  /** A record as it is read. */
  datatype Form = Form(owner: seq<text>, rtype: nat, rclass: nat, ttl: nat, octets: seq<byte>, target: seq<text>)

  function Big16(v: nat): seq<byte> {
    [v / 0x100 % 0x100, v % 0x100]
  }

  /**
   The form of each: sections 3.2.1 and 3.3.12 of RFC 1035, RFC 2782, RFC 6763, and section 10.2 of RFC 6762
   for the class. The lifetime is zero in a goodbye and only there; the pointer to a type has no goodbye.
   */
  function FormOf(x: Resource): Form {
    match x
    case Pointer(i, s, p, bye) =>
      Form([s, p, LOCAL], 12, 0x0001, if bye then 0 else 4500, [], [i, s, p, LOCAL])
    case SubPointer(sub, i, s, p, bye) =>
      Form([sub, SUB, s, p, LOCAL], 12, 0x0001, if bye then 0 else 4500, [], [i, s, p, LOCAL])
    case TypePointer(s, p, flush) =>
      Form([SERVICES, DNS_SD, UDP, LOCAL], 12, if flush then 0x8001 else 0x0001, 4500, [], [s, p, LOCAL])
    case Location(i, s, p, priority, weight, port, host, flush, bye) =>
      Form([i, s, p, LOCAL], 33, if flush then 0x8001 else 0x0001, if bye then 0 else 120,
           Big16(priority) + Big16(weight) + Big16(port), [host, LOCAL])
    case Info(i, s, p, entries, flush, bye) =>
      Form([i, s, p, LOCAL], 16, if flush then 0x8001 else 0x0001, if bye then 0 else 4500,
           if entries == [] then [0] else Txt.Encode(entries), [])
    case AddressOf(host, octets, flush, bye) =>
      Form([host, LOCAL], if |octets| == 4 then 1 else 28, if flush then 0x8001 else 0x0001, if bye then 0 else 120,
           octets, [])
  }

  /** The record at `at` says so. */
  predicate Says(mem: seq<byte>, at: nat, x: Resource)
    requires Buffer(mem)
  {
    var f := FormOf(x);
    Carries(mem, at, f.owner, f.rtype, f.rclass, f.ttl, f.octets, f.target)
  }

  /** What an answer has to tell, from the fields of its service or host and of the responder. */
  predicate Due(x: Resource, a: Dispatch.Answer, env: Dispatch.Env) {
    && (a.host.Delegated? ==> a.host.host in env.hosts)
    && match x
       case Pointer(i, s, p, bye) =>
         && a.atype == TYPE_PTR && bye == a.bye
         && if a.service.Some? then
              i == a.service.value.instance && s == a.service.value.service && p == a.service.value.proto
            else a.custom == Txt.Some((i, s, p))
       case SubPointer(sub, i, s, p, bye) =>
         && a.atype == TYPE_PTR && bye == a.bye && a.service.Some? && sub in a.service.value.subtypes
         && i == a.service.value.instance && s == a.service.value.service && p == a.service.value.proto
       case TypePointer(s, p, flush) =>
         && a.atype == TYPE_SDPTR && a.service.Some? && flush == a.flush
         && s == a.service.value.service && p == a.service.value.proto
       case Location(i, s, p, priority, weight, port, host, flush, bye) =>
         && a.atype == TYPE_SRV && a.service.Some? && flush == a.flush && bye == a.bye && host != []
         && var v := a.service.value;
            && i == v.instance && s == v.service && p == v.proto
            && priority == v.priority && weight == v.weight && port == v.port
            && host == if v.hostname.Some? then v.hostname.value else env.hostname
       case Info(i, s, p, entries, flush, bye) =>
         && a.atype == TYPE_TXT && a.service.Some? && flush == a.flush && bye == a.bye
         && var v := a.service.value; i == v.instance && s == v.service && p == v.proto && entries == v.txt
       case AddressOf(host, octets, flush, bye) =>
         && flush == a.flush && bye == a.bye
         && if a.atype == TYPE_A then FourOf(host, octets, a, env)
            else a.atype == TYPE_AAAA && SixOf(host, octets, a, env)
  }

  /** An IPv4 address of the host: the own one if the link has it, or one of a delegated host. */
  predicate FourOf(host: text, octets: seq<byte>, a: Dispatch.Answer, env: Dispatch.Env) {
    match a.host
    case NoHost => false
    case SelfHost => host == env.hostname != [] && env.ready4 && env.ip4 == Txt.Some(octets)
    case Delegated(h) => host == h.hostname && Dispatch.V4(octets) in h.addresses
  }

  predicate SixOf(host: text, octets: seq<byte>, a: Dispatch.Answer, env: Dispatch.Env) {
    match a.host
    case NoHost => false
    case SelfHost => host == env.hostname != [] && env.ready6 && octets in env.ip6s
    case Delegated(h) => host == h.hostname && Dispatch.V6(octets) in h.addresses
  }

  // ---------------------------------------------------------------- the records laid down and what they say

  predicate Spells(x: Resource, r: Record) {
    var f := FormOf(x);
    && r.owner == f.owner && r.kind == Kind(f.rtype, f.rclass, f.ttl) && r.prefix == f.octets
    && r.target == f.target && (r.named <==> f.target != [])
  }

  lemma SpellsSays(mem: seq<byte>, at: nat, x: Resource, r: Record)
    requires Buffer(mem) && Spells(x, r) && Reads(mem, at, r)
    ensures Says(mem, at, x)
  {
    hide Carries, FormOf;
  }

  lemma Big16Is(v: nat)
    requires v < 0x10000
    ensures Big16(v) == U16Bytes(v)
  {
  }

  lemma {:induction false} SubtypesAre(s: Service, i: nat, bye: bool)
    requires i <= |s.subtypes|
    ensures var rs := Dispatch.SubtypePointers(s, i, bye);
            && |rs| == |s.subtypes| - i
            && forall j :: 0 <= j < |rs| ==>
                 Spells(SubPointer(s.subtypes[i + j], s.instance, s.service, s.proto, bye), rs[j])
    decreases |s.subtypes| - i
  {
    hide Spells;
    if i < |s.subtypes| {
      SubtypesAre(s, i + 1, bye);
      SubtypeSpells(s, i, bye);
      var rs, t := Dispatch.SubtypePointers(s, i, bye), Dispatch.SubtypePointers(s, i + 1, bye);
      forall j | 0 <= j < |rs|
        ensures Spells(SubPointer(s.subtypes[i + j], s.instance, s.service, s.proto, bye), rs[j])
      {
        if j > 0 { assert rs[j] == t[j - 1] && s.subtypes[i + j] == s.subtypes[i + 1 + (j - 1)]; }
      }
    }
  }

  lemma SubtypeSpells(s: Service, i: nat, bye: bool)
    requires i < |s.subtypes|
    ensures Spells(SubPointer(s.subtypes[i], s.instance, s.service, s.proto, bye),
                   SubtypeRecord(s.instance, s.subtypes[i], s.service, s.proto, bye))
  {
  }

  lemma {:induction false} OwnAre(ips: seq<seq<byte>>, rtype: nat, a: Dispatch.Answer, env: Dispatch.Env)
    requires forall i :: 0 <= i < |ips| ==> rtype == if |ips[i]| == 4 then 1 else 28
    ensures var rs := Dispatch.SelfAddresses(ips, rtype, a, env);
            && |rs| == |ips|
            && forall j :: 0 <= j < |rs| ==> Spells(AddressOf(env.hostname, ips[j], a.flush, a.bye), rs[j])
  {
    hide Spells;
    if ips != [] {
      forall i | 0 <= i < |ips[1..]| ensures rtype == if |ips[1..][i]| == 4 then 1 else 28 {
        assert ips[1..][i] == ips[i + 1];
      }
      OwnAre(ips[1..], rtype, a, env);
      AddressSpells(env.hostname, rtype, ips[0], a.flush, a.bye);
      var rs, t := Dispatch.SelfAddresses(ips, rtype, a, env), Dispatch.SelfAddresses(ips[1..], rtype, a, env);
      forall j | 0 <= j < |rs| ensures Spells(AddressOf(env.hostname, ips[j], a.flush, a.bye), rs[j]) {
        if j > 0 { assert rs[j] == t[j - 1] && ips[j] == ips[1..][j - 1]; }
      }
    }
  }

  lemma AddressSpells(host: text, rtype: nat, octets: seq<byte>, flush: bool, bye: bool)
    requires rtype == if |octets| == 4 then 1 else 28
    ensures Spells(AddressOf(host, octets, flush, bye), AddressRecord(host, rtype, octets, flush, bye))
  {
  }

  /** The octets are an address of the host of the asked family, at `i` or behind. */
  predicate HasAddress(host: Dispatch.Host, i: nat, four: bool, octets: seq<byte>) {
    exists k :: i <= k < |host.addresses| && host.addresses[k].V4? == four && host.addresses[k].octets == octets
  }

  lemma AddressNext(host: Dispatch.Host, i: nat, four: bool, octets: seq<byte>)
    requires i < |host.addresses|
    ensures HasAddress(host, i, four, octets) ==
            ((host.addresses[i].V4? == four && host.addresses[i].octets == octets)
             || HasAddress(host, i + 1, four, octets))
  {
    if k :| i <= k < |host.addresses| && host.addresses[k].V4? == four && host.addresses[k].octets == octets {
      if k > i { assert HasAddress(host, i + 1, four, octets); }
    }
  }

  predicate IsAddressRecord(host: Dispatch.Host, i: nat, four: bool, a: Dispatch.Answer, r: Record) {
    HasAddress(host, i, four, r.prefix) && Spells(AddressOf(host.hostname, r.prefix, a.flush, a.bye), r)
  }

  predicate AllAddresses(host: Dispatch.Host, i: nat, four: bool, a: Dispatch.Answer, rs: seq<Record>) {
    forall j :: 0 <= j < |rs| ==> IsAddressRecord(host, i, four, a, rs[j])
  }

  lemma {:induction false} HostsAre(host: Dispatch.Host, i: nat, four: bool, a: Dispatch.Answer)
    requires Dispatch.HostOk(host) && i <= |host.addresses|
    ensures var rs := Dispatch.HostAddresses(host, i, four, a);
            && AllAddresses(host, i, four, a, rs)
            && (forall octets :: HasAddress(host, i, four, octets) ==> HasPrefix(rs, octets))
    decreases |host.addresses| - i
  {
    hide Spells, HasAddress, HasPrefix;
    if i < |host.addresses| {
      HostsAre(host, i + 1, four, a);
      var rs, t := Dispatch.HostAddresses(host, i, four, a), Dispatch.HostAddresses(host, i + 1, four, a);
      var x := host.addresses[i];
      if x.V4? == four {
        AddressSpells(host.hostname, if four then TYPE_A else TYPE_AAAA, x.octets, a.flush, a.bye);
        assert rs == [rs[0]] + t;
      }
      forall j | 0 <= j < |rs| ensures IsAddressRecord(host, i, four, a, rs[j]) {
        AddressNext(host, i, four, rs[j].prefix);
        if |rs| == |t| { assert IsAddressRecord(host, i + 1, four, a, t[j]); }
        else if j > 0 { assert IsAddressRecord(host, i + 1, four, a, t[j - 1]); }
      }
      forall octets | HasAddress(host, i, four, octets) ensures HasPrefix(rs, octets) {
        AddressNext(host, i, four, octets);
        PrefixMore(rs, t, octets);
      }
    } else {
      NoAddress(host, i, four);
    }
  }

  predicate HasPrefix(rs: seq<Record>, octets: seq<byte>) {
    exists j :: 0 <= j < |rs| && rs[j].prefix == octets
  }

  lemma PrefixMore(rs: seq<Record>, t: seq<Record>, octets: seq<byte>)
    requires rs == t || (rs != [] && rs == [rs[0]] + t)
    ensures HasPrefix(t, octets) || (rs != t && rs[0].prefix == octets) ==> HasPrefix(rs, octets)
  {
    if j :| 0 <= j < |t| && t[j].prefix == octets { assert rs[if rs == t then j else j + 1].prefix == octets; }
  }

  lemma NoAddress(host: Dispatch.Host, i: nat, four: bool)
    requires i >= |host.addresses|
    ensures forall octets :: !HasAddress(host, i, four, octets)
  {
  }

  /** The number of records of an answer. */
  function CountOf(a: Dispatch.Answer, env: Dispatch.Env): nat {
    if a.host.Delegated? && a.host.host !in env.hosts then 0
    else if a.atype == TYPE_PTR then
      if a.service.Some? then 1 + |a.service.value.subtypes| else if a.custom.Some? then 1 else 0
    else if a.atype == TYPE_SRV then
      if a.service.Some? && Target(a.service.value, env.hostname) != [] then 1 else 0
    else if a.atype == TYPE_TXT || a.atype == TYPE_SDPTR then if a.service.Some? then 1 else 0
    else if a.atype == TYPE_A then
      match a.host
      case NoHost => 0
      case SelfHost => if env.hostname != [] && env.ready4 && env.ip4.Some? then 1 else 0
      case Delegated(h) => Families(h.addresses, true)
    else if a.atype == TYPE_AAAA then
      match a.host
      case NoHost => 0
      case SelfHost => if env.hostname != [] && env.ready6 then |env.ip6s| else 0
      case Delegated(h) => Families(h.addresses, false)
    else 0
  }

  function Families(l: seq<Dispatch.Address>, four: bool): nat {
    if l == [] then 0 else (if l[0].V4? == four then 1 else 0) + Families(l[1..], four)
  }

  lemma {:induction false} HostsCount(host: Dispatch.Host, i: nat, four: bool, a: Dispatch.Answer)
    requires i <= |host.addresses|
    ensures |Dispatch.HostAddresses(host, i, four, a)| == Families(host.addresses[i..], four)
    decreases |host.addresses| - i
  {
    if i < |host.addresses| {
      Around(host.addresses, i);
      HostsCount(host, i + 1, four, a);
    }
  }

  lemma CountIs(a: Dispatch.Answer, env: Dispatch.Env)
    requires Dispatch.AnswerOk(a)
    ensures |Dispatch.RecordsOf(a, env)| == CountOf(a, env)
  {
    hide Dispatch.SubtypePointers, Dispatch.HostAddresses, Dispatch.SelfAddresses, Families, Target, Dispatch.Single;
    if a.service.Some? { SubtypesAre(a.service.value, 0, a.bye); }
    if a.host.Delegated? {
      HostsCount(a.host.host, 0, a.atype == TYPE_A, a);
      Whole(a.host.host.addresses);
    }
  }

  /** Record `i` of an answer tells something the answer has to tell. */
  lemma RecordIsDue(a: Dispatch.Answer, env: Dispatch.Env, i: nat) returns (x: Resource)
    requires Dispatch.AnswerOk(a) && Dispatch.EnvOk(env) && i < |Dispatch.RecordsOf(a, env)|
    ensures Due(x, a, env) && Spells(x, Dispatch.RecordsOf(a, env)[i])
  {
    if a.atype == TYPE_PTR { x := PointerIsDue(a, env, i); }
    else if a.atype == TYPE_A || a.atype == TYPE_AAAA { x := AddressIsDue(a, env, i); }
    else { x := SingleIsDue(a, env, i); }
  }

  lemma PointerIsDue(a: Dispatch.Answer, env: Dispatch.Env, i: nat) returns (x: Resource)
    requires Dispatch.AnswerOk(a) && i < |Dispatch.RecordsOf(a, env)| && a.atype == TYPE_PTR
    ensures Due(x, a, env) && Spells(x, Dispatch.RecordsOf(a, env)[i])
  {
    if a.service.Some? {
      var s := a.service.value;
      SubtypesAre(s, 0, a.bye);
      hide Dispatch.SubtypePointers;
      x := if i == 0 then Pointer(s.instance, s.service, s.proto, a.bye)
           else SubPointer(s.subtypes[i - 1], s.instance, s.service, s.proto, a.bye);
    } else {
      var c := a.custom.value;
      x := Pointer(c.0, c.1, c.2, a.bye);
    }
  }

  lemma SingleIsDue(a: Dispatch.Answer, env: Dispatch.Env, i: nat) returns (x: Resource)
    requires Dispatch.AnswerOk(a) && i < |Dispatch.RecordsOf(a, env)|
    requires a.atype != TYPE_PTR && a.atype != TYPE_A && a.atype != TYPE_AAAA
    ensures Due(x, a, env) && Spells(x, Dispatch.RecordsOf(a, env)[i])
  {
    var v := a.service.value;
    if a.atype == TYPE_SRV {
      Big16Is(v.priority);
      Big16Is(v.weight);
      Big16Is(v.port);
      hide Big16, U16Bytes;
      x := Location(v.instance, v.service, v.proto, v.priority, v.weight, v.port, Target(v, env.hostname), a.flush,
                    a.bye);
    } else if a.atype == TYPE_TXT {
      x := Info(v.instance, v.service, v.proto, v.txt, a.flush, a.bye);
    } else {
      x := TypePointer(v.service, v.proto, a.flush);
    }
  }

  /** The records of an address answer. */
  function AddressRecords(a: Dispatch.Answer, env: Dispatch.Env): seq<Record> {
    if a.host.Delegated? then
      if a.host.host in env.hosts then Dispatch.HostAddresses(a.host.host, 0, a.atype == TYPE_A, a) else []
    else if a.host.NoHost? || env.hostname == [] then []
    else if a.atype == TYPE_A then
      if env.ready4 && env.ip4.Some? then Dispatch.SelfAddresses([env.ip4.value], TYPE_A, a, env) else []
    else if env.ready6 then Dispatch.SelfAddresses(env.ip6s, TYPE_AAAA, a, env)
    else []
  }

  lemma AddressRecordsAre(a: Dispatch.Answer, env: Dispatch.Env)
    requires Dispatch.AnswerOk(a) && (a.atype == TYPE_A || a.atype == TYPE_AAAA)
    ensures Dispatch.RecordsOf(a, env) == AddressRecords(a, env)
  {
    hide Dispatch.HostAddresses, Dispatch.SelfAddresses;
  }

  lemma AddressIsDue(a: Dispatch.Answer, env: Dispatch.Env, i: nat) returns (x: Resource)
    requires Dispatch.AnswerOk(a) && Dispatch.EnvOk(env) && i < |Dispatch.RecordsOf(a, env)|
    requires a.atype == TYPE_A || a.atype == TYPE_AAAA
    ensures Due(x, a, env) && Spells(x, Dispatch.RecordsOf(a, env)[i])
  {
    AddressRecordsAre(a, env);
    if a.host.Delegated? { x := DelegatedIsDue(a, env, i); }
    else {
      if a.atype == TYPE_A { OwnAre([env.ip4.value], 1, a, env); } else { OwnAre(env.ip6s, 28, a, env); }
      hide Dispatch.SelfAddresses, Dispatch.HostAddresses, Spells, Dispatch.RecordsOf;
      x := AddressOf(env.hostname, if a.atype == TYPE_A then env.ip4.value else env.ip6s[i], a.flush, a.bye);
    }
  }

  lemma DelegatedIsDue(a: Dispatch.Answer, env: Dispatch.Env, i: nat) returns (x: Resource)
    requires Dispatch.AnswerOk(a) && a.host.Delegated? && i < |AddressRecords(a, env)|
    requires a.atype == TYPE_A || a.atype == TYPE_AAAA
    ensures Due(x, a, env) && Spells(x, AddressRecords(a, env)[i])
  {
    var h, four := a.host.host, a.atype == TYPE_A;
    HostsAre(h, 0, four, a);
    hide Dispatch.HostAddresses, Spells, Dispatch.HostOk;
    var rs := Dispatch.HostAddresses(h, 0, four, a);
    assert IsAddressRecord(h, 0, four, a, rs[i]);
    x := AddressOf(h.hostname, rs[i].prefix, a.flush, a.bye);
    var k :| 0 <= k < |h.addresses| && h.addresses[k].V4? == four && h.addresses[k].octets == rs[i].prefix;
    assert h.addresses[k] == if four then Dispatch.V4(rs[i].prefix) else Dispatch.V6(rs[i].prefix);
  }

  /** Whatever an answer has to tell one of its records tells. */
  lemma DueIsRecord(a: Dispatch.Answer, env: Dispatch.Env, x: Resource) returns (i: nat)
    requires Dispatch.AnswerOk(a) && Dispatch.EnvOk(env) && Due(x, a, env)
    ensures i < |Dispatch.RecordsOf(a, env)| && Spells(x, Dispatch.RecordsOf(a, env)[i])
  {
    if x.AddressOf? { i := AddressIsRecord(a, env, x); }
    else if x.SubPointer? || x.Pointer? { i := PointerIsRecord(a, env, x); }
    else {
      SingleIsRecord(a, env, x);
      i := 0;
    }
  }

  lemma PointerIsRecord(a: Dispatch.Answer, env: Dispatch.Env, x: Resource) returns (i: nat)
    requires Dispatch.AnswerOk(a) && Due(x, a, env) && (x.SubPointer? || x.Pointer?)
    ensures i < |Dispatch.RecordsOf(a, env)| && Spells(x, Dispatch.RecordsOf(a, env)[i])
  {
    if x.SubPointer? {
      var s := a.service.value;
      SubtypesAre(s, 0, a.bye);
      hide Dispatch.SubtypePointers, Spells;
      var j :| 0 <= j < |s.subtypes| && s.subtypes[j] == x.subtype;
      i := j + 1;
    } else {
      i := 0;
    }
  }

  lemma SingleIsRecord(a: Dispatch.Answer, env: Dispatch.Env, x: Resource)
    requires Dispatch.AnswerOk(a) && Due(x, a, env) && (x.TypePointer? || x.Location? || x.Info?)
    ensures |Dispatch.RecordsOf(a, env)| == 1 && Spells(x, Dispatch.RecordsOf(a, env)[0])
  {
    if x.Location? {
      Big16Is(a.service.value.priority);
      Big16Is(a.service.value.weight);
      Big16Is(a.service.value.port);
      hide Big16, U16Bytes;
    }
  }

  lemma AddressIsRecord(a: Dispatch.Answer, env: Dispatch.Env, x: Resource) returns (i: nat)
    requires Dispatch.AnswerOk(a) && Dispatch.EnvOk(env) && Due(x, a, env) && x.AddressOf?
    ensures i < |Dispatch.RecordsOf(a, env)| && Spells(x, Dispatch.RecordsOf(a, env)[i])
  {
    AddressRecordsAre(a, env);
    if a.host.Delegated? { i := DelegatedIsRecord(a, env, x); }
    else {
      hide Dispatch.SelfAddresses, Spells, Dispatch.RecordsOf, Dispatch.HostAddresses;
      if a.atype == TYPE_A {
        i := 0;
        OwnAre([env.ip4.value], 1, a, env);
      } else {
        OwnAre(env.ip6s, 28, a, env);
        i :| 0 <= i < |env.ip6s| && env.ip6s[i] == x.octets;
      }
    }
  }

  lemma DelegatedIsRecord(a: Dispatch.Answer, env: Dispatch.Env, x: Resource) returns (i: nat)
    requires Dispatch.AnswerOk(a) && Due(x, a, env) && x.AddressOf? && a.host.Delegated?
    ensures i < |AddressRecords(a, env)| && Spells(x, AddressRecords(a, env)[i])
  {
    var h, four := a.host.host, a.atype == TYPE_A;
    HostsAre(h, 0, four, a);
    hide Dispatch.HostAddresses, Spells, Dispatch.HostOk;
    var k :| 0 <= k < |h.addresses| &&
             h.addresses[k] == (if four then Dispatch.V4(x.octets) else Dispatch.V6(x.octets));
    assert HasAddress(h, 0, four, x.octets);
    var rs := Dispatch.HostAddresses(h, 0, four, a);
    assert HasPrefix(rs, x.octets);
    i :| 0 <= i < |rs| && rs[i].prefix == x.octets;
    assert IsAddressRecord(h, 0, four, a, rs[i]);
  }

  // ---------------------------------------------------------------- a section

  lemma SpellsWellMade(x: Resource, r: Record)
    requires Spells(x, r) && Labels(r.owner) && Labels(r.target)
    ensures WellMade(r)
  {
    hide Txt.Encode, Big16;
    if x.Location? { assert |r.prefix| == 6 by { Six(x); } }
  }

  lemma Six(x: Resource)
    requires x.Location?
    ensures |FormOf(x).octets| == 6
  {
  }

  /** The records of the last answer stand behind those of the others. */
  lemma LastRecords(l: seq<Dispatch.Answer>, env: Dispatch.Env)
    requires l != [] && Dispatch.AnswersOk(l)
    ensures Dispatch.AnswersOk(l[..|l| - 1]) && Dispatch.AnswerOk(l[|l| - 1])
    ensures Dispatch.AllRecords(l, env) ==
            Dispatch.AllRecords(l[..|l| - 1], env) + Dispatch.RecordsOf(l[|l| - 1], env)
  {
    hide Dispatch.AnswerOk, Dispatch.RecordsOf;
  }

  lemma {:induction false} AllAreDue(l: seq<Dispatch.Answer>, env: Dispatch.Env, i: nat) returns (k: nat, x: Resource)
    requires Dispatch.AnswersOk(l) && Dispatch.EnvOk(env) && i < |Dispatch.AllRecords(l, env)|
    ensures k < |l| && Due(x, l[k], env) && Spells(x, Dispatch.AllRecords(l, env)[i])
    decreases |l|
  {
    hide Dispatch.RecordsOf, Dispatch.AnswerOk, Dispatch.EnvOk, Due, Spells;
    assert l != [];
    LastRecords(l, env);
    var front := l[..|l| - 1];
    var n := |Dispatch.AllRecords(front, env)|;
    hide Dispatch.AllRecords;
    if i < n {
      k, x := AllAreDue(front, env, i);
      assert front[k] == l[k];
    } else {
      k := |l| - 1;
      x := RecordIsDue(l[k], env, i - n);
    }
  }

  lemma {:induction false} AllAreRecords(l: seq<Dispatch.Answer>, env: Dispatch.Env, k: nat, x: Resource)
    returns (i: nat)
    requires Dispatch.AnswersOk(l) && Dispatch.EnvOk(env) && k < |l| && Due(x, l[k], env)
    ensures i < |Dispatch.AllRecords(l, env)| && Spells(x, Dispatch.AllRecords(l, env)[i])
    decreases |l|
  {
    hide Dispatch.RecordsOf, Dispatch.AnswerOk, Dispatch.EnvOk, Due, Spells;
    LastRecords(l, env);
    var front := l[..|l| - 1];
    var n := |Dispatch.AllRecords(front, env)|;
    hide Dispatch.AllRecords;
    if k < |l| - 1 {
      assert front[k] == l[k];
      i := AllAreRecords(front, env, k, x);
    } else {
      i := DueIsRecord(l[k], env, x);
      i := i + n;
    }
  }

  function Counts(l: seq<Dispatch.Answer>, env: Dispatch.Env): nat {
    if l == [] then 0 else Counts(l[..|l| - 1], env) + CountOf(l[|l| - 1], env)
  }

  lemma {:induction false} CountsAre(l: seq<Dispatch.Answer>, env: Dispatch.Env)
    requires Dispatch.AnswersOk(l)
    ensures |Dispatch.AllRecords(l, env)| == Counts(l, env)
    decreases |l|
  {
    hide Dispatch.RecordsOf, Dispatch.AnswerOk, CountOf;
    if l != [] {
      LastRecords(l, env);
      CountsAre(l[..|l| - 1], env);
      CountIs(l[|l| - 1], env);
    }
  }

  lemma SectionWellMade(l: seq<Dispatch.Answer>, env: Dispatch.Env)
    requires Dispatch.AnswersOk(l) && Dispatch.EnvOk(env)
    ensures AllWellMade(Dispatch.AllRecords(l, env))
  {
    Dispatch.AllLabelled(l, env);
    hide Dispatch.AllRecords, WellMade, Spells, Dispatch.AnswersOk, Dispatch.EnvOk, Due;
    var rs := Dispatch.AllRecords(l, env);
    forall i | 0 <= i < |rs| ensures WellMade(rs[i]) {
      var k, x := AllAreDue(l, env, i);
      SpellsWellMade(x, rs[i]);
    }
  }

  /** Record number `i` of the section that begins at `from` says so. */
  predicate At(mem: seq<byte>, from: nat, i: nat, x: Resource)
    requires Buffer(mem)
  {
    var at := Hops(mem, from, i);
    at >= 0 && Says(mem, at, x)
  }

  ghost predicate Told(mem: seq<byte>, from: nat, count: nat, x: Resource)
    requires Buffer(mem)
  {
    exists i :: 0 <= i < count && At(mem, from, i, x)
  }

  ghost predicate Called(mem: seq<byte>, from: nat, i: nat, l: seq<Dispatch.Answer>, env: Dispatch.Env)
    requires Buffer(mem)
  {
    exists k, x :: 0 <= k < |l| && Due(x, l[k], env) && At(mem, from, i, x)
  }

  /**
   The `count` records that begin at `from` and end at `upto` tell all that the answers have to tell, and
   nothing else; they are as many as the answers call for.
   */
  ghost predicate Tells(mem: seq<byte>, from: nat, upto: nat, count: nat, l: seq<Dispatch.Answer>, env: Dispatch.Env)
    requires Buffer(mem)
  {
    && Hops(mem, from, count) == upto && count == Counts(l, env)
    && (forall k, x :: 0 <= k < |l| && Due(x, l[k], env) ==> Told(mem, from, count, x))
    && (forall i :: 0 <= i < count ==> Called(mem, from, i, l, env))
  }

  lemma SectionTells(mem: seq<byte>, from: nat, upto: nat, l: seq<Dispatch.Answer>, env: Dispatch.Env)
    requires Buffer(mem) && Dispatch.AnswersOk(l) && Dispatch.EnvOk(env)
    requires AllRead(mem, from, upto, Dispatch.AllRecords(l, env))
    ensures Tells(mem, from, upto, |Dispatch.AllRecords(l, env)|, l, env)
  {
    CountsAre(l, env);
    hide Dispatch.AllRecords, Spells, Dispatch.AnswersOk, Dispatch.EnvOk, Due, Reads, Says, Hops, Counts;
    var rs := Dispatch.AllRecords(l, env);
    forall k, x | 0 <= k < |l| && Due(x, l[k], env) ensures Told(mem, from, |rs|, x) {
      var i := AllAreRecords(l, env, k, x);
      SpellsSays(mem, Hops(mem, from, i), x, rs[i]);
      assert At(mem, from, i, x);
    }
    forall i | 0 <= i < |rs| ensures Called(mem, from, i, l, env) {
      var k, x := AllAreDue(l, env, i);
      SpellsSays(mem, Hops(mem, from, i), x, rs[i]);
      assert At(mem, from, i, x);
    }
  }

  // ---------------------------------------------------------------- the packet

  ghost predicate SoundSection(s: Dispatch.Stage, l: seq<Dispatch.Answer>, env: Dispatch.Env)
    requires Dispatch.AnswersOk(l)
  {
    SoundAll(s.before, s.after, s.from, s.upto, Dispatch.AllRecords(l, env))
  }

  /** All names of the packet took matches that are settled and read without the header, or none. */
  ghost predicate SoundNames(q: Dispatch.Stage, t: Dispatch.Sections, p: Dispatch.OutPacket, env: Dispatch.Env)
    requires Dispatch.PacketOk(p)
  {
    && GoodQuestions(q.before, q.after, q.from, q.upto, p.questions)
    && SoundSection(t.answers, p.answers, env) && SoundSection(t.servers, p.servers, env)
    && SoundSection(t.additional, p.additional, env)
  }

  lemma StageTells(mem: seq<byte>, s: Dispatch.Stage, l: seq<Dispatch.Answer>, env: Dispatch.Env)
    requires Dispatch.AnswersOk(l) && Dispatch.EnvOk(env) && Buffer(mem) && HEAD_LEN <= s.from
    requires SoundSection(s, l, env) && Dispatch.Keeps(mem, s)
    ensures s.from <= s.upto && Tells(mem, s.from, s.upto, |Dispatch.AllRecords(l, env)|, l, env)
  {
    SectionWellMade(l, env);
    hide Dispatch.AllRecords, Dispatch.AnswersOk, Dispatch.EnvOk, AllWellMade, SoundAll, Tells;
    FrontFrames(s.before, s.after, s.from, s.upto, Dispatch.AllRecords(l, env));
    RunReads(s.before, s.after, s.from, s.upto, Dispatch.AllRecords(l, env), mem);
    hide AllRead;
    SectionTells(mem, s.from, s.upto, l, env);
  }

  /** Question `k`, where the receiver comes to it: its name, type and class. */
  predicate QuestionRead(mem: seq<byte>, k: nat, name: seq<text>, qtype: nat, unicast: bool)
    requires Buffer(mem)
  {
    var at := WalkQuestions(mem, HEAD_LEN, k);
    && at >= 0 && ReadsAs(mem, at, at, name)
    && var n := SkipName(mem, at);
       0 <= n <= MAX - 4 && U16At(mem, n) == qtype && U16At(mem, n + 2) == if unicast then 0x8001 else 0x0001
  }

  /** The name a question asks about: of an instance, a service type, or a host. */
  predicate AsksAbout(q: Dispatch.Question, name: seq<text>) {
    if q.service.Some? && q.proto.Some? && q.domain.Some? then
      name == (if q.host.Some? then [q.host.value] else []) + [q.service.value, q.proto.value, q.domain.value]
    else
      q.host.Some? && q.domain.Some? && q.service.None? && q.proto.None? && name == [q.host.value, q.domain.value]
  }

  lemma AboutName(q: Dispatch.Question, name: seq<text>)
    requires AsksAbout(q, name)
    ensures name == Dispatch.QuestionName(q)
  {
  }

  lemma AskedIsRead(before: seq<byte>, after: seq<byte>, from: nat, upto: nat, q: Dispatch.Question, mem: seq<byte>)
    requires Dispatch.Asks(before, after, from, upto, q) && Dispatch.QuestionOk(q)
    requires Buffer(mem) && AgreeOn(after, mem, HEAD_LEN, upto) && HEAD_LEN <= from
    ensures SkipName(mem, from) == upto - 4 && U16At(mem, upto - 4) == q.qtype
    ensures U16At(mem, upto - 2) == if q.unicast then 0x8001 else 0x0001
  {
    hide AppendFqdn, Size, Dispatch.QuestionName;
    var name := Dispatch.QuestionName(q);
    NameIsFramed(before, from, name);
    SkipNameFrame(AppendFqdn(before, from, name).mem, mem, from);
    hide SkipName;
    FieldKept(after, mem, upto - 4);
    FieldKept(after, mem, upto - 2);
  }

  /** Type and class of each question, where the receiver comes to it. */
  lemma {:induction false} TypesRead(before: seq<byte>, after: seq<byte>, from: nat, upto: nat,
                                     l: seq<Dispatch.Question>, mem: seq<byte>, k: nat)
    requires GoodQuestions(before, after, from, upto, l) && Dispatch.QuestionsOk(l) && HEAD_LEN <= from
    requires Buffer(mem) && AgreeOn(after, mem, HEAD_LEN, upto) && k < |l|
    ensures var at := WalkQuestions(mem, from, k);
            && at >= 0
            && var n := SkipName(mem, at);
               0 <= n <= MAX - 4 && U16At(mem, n) == l[k].qtype
               && U16At(mem, n + 2) == if l[k].unicast then 0x8001 else 0x0001
    decreases |l|
  {
    hide Dispatch.Asks, Good, SkipQuestion, SkipName, U16At, Dispatch.QuestionOk, Dispatch.QuestionName;
    var last, front := l[|l| - 1], l[..|l| - 1];
    var mid, m :| GoodAsked(before, mid, after, from, m, upto, l);
    QuestionsWalk(before, mid, from, m, front);
    AskedBounds(mid, after, m, upto, last);
    AskedIsFramed(mid, after, m, upto, last);
    hide GoodQuestions;
    Kept(mid, after, mem, m, upto);
    if k < |l| - 1 {
      TypesRead(before, mid, from, m, front, mem, k);
    } else {
      WalkQuestionsFrame(mid, mem, from, |front|);
      AskedIsRead(mid, after, m, upto, last, mem);
    }
  }

  ghost predicate QuestionsTell(mem: seq<byte>, l: seq<Dispatch.Question>)
    requires Buffer(mem)
  {
    forall k, name :: 0 <= k < |l| && AsksAbout(l[k], name) ==> QuestionRead(mem, k, name, l[k].qtype, l[k].unicast)
  }

  lemma QuestionsAreRead(mem: seq<byte>, q: Dispatch.Stage, l: seq<Dispatch.Question>)
    requires Buffer(mem) && q.from == HEAD_LEN && Dispatch.QuestionsOk(l) && Dispatch.Keeps(mem, q)
    requires GoodQuestions(q.before, q.after, q.from, q.upto, l)
    ensures WalkQuestions(mem, HEAD_LEN, |l|) == q.upto && QuestionsTell(mem, l) && HEAD_LEN <= q.upto
  {
    hide GoodQuestions, Dispatch.QuestionOk, ReadsAs, SkipName, U16At, AsksAbout;
    QuestionsWalk(q.before, q.after, q.from, q.upto, l);
    WalkQuestionsFrame(q.after, mem, q.from, |l|);
    forall k, name | 0 <= k < |l| && AsksAbout(l[k], name)
      ensures QuestionRead(mem, k, name, l[k].qtype, l[k].unicast)
    {
      AboutName(l[k], name);
      NamesReadBack(q.before, q.after, q.from, q.upto, l, mem, k);
      TypesRead(q.before, q.after, q.from, q.upto, l, mem, k);
    }
  }

  /**
   What a receiver of the packet reads from the octets alone: as many questions as the header says, each
   about the name, of the type and class it was asked for; and behind them, as many records as the header
   says in each of the three sections, which tell exactly what the answers of the packet have to tell.
   */
  lemma PacketTells(mem: seq<byte>, index: nat, q: Dispatch.Stage, t: Dispatch.Sections, p: Dispatch.OutPacket,
                    env: Dispatch.Env)
    requires Dispatch.PacketOk(p) && Dispatch.EnvOk(env) && Dispatch.WellFramed(mem, index, p, env)
    requires Dispatch.LaidOut(mem, index, q, t, p, env) && SoundNames(q, t, p, env)
    ensures Buffer(mem) && U16At(mem, 0) == p.id && U16At(mem, 2) == p.flags
    ensures U16At(mem, 4) == |p.questions| && QuestionsTell(mem, p.questions)
    ensures var answers := WalkQuestions(mem, HEAD_LEN, U16At(mem, 4));
            && answers >= 0
            && var servers := Hops(mem, answers, U16At(mem, 6));
               && servers >= 0
               && var additional := Hops(mem, servers, U16At(mem, 8));
                  && additional >= 0
                  && Tells(mem, answers, servers, U16At(mem, 6), p.answers, env)
                  && Tells(mem, servers, additional, U16At(mem, 8), p.servers, env)
                  && Tells(mem, additional, index, U16At(mem, 10), p.additional, env)
  {
    hide GoodQuestions, Dispatch.AsksAll, Dispatch.QuestionOk, Dispatch.SpelledAll, SoundSection, Dispatch.Keeps;
    hide Dispatch.AllRecords, Dispatch.EnvOk, Dispatch.AnswersOk, QuestionsTell, U16At, WalkRecords, Dispatch.Kinds;
    QuestionsAreRead(mem, q, p.questions);
    StageTells(mem, t.answers, p.answers, env);
    StageTells(mem, t.servers, p.servers, env);
    StageTells(mem, t.additional, p.additional, env);
    EndOf(mem, t.answers.from, t.answers.upto, |Dispatch.AllRecords(p.answers, env)|, p.answers, env);
    EndOf(mem, t.servers.from, t.servers.upto, |Dispatch.AllRecords(p.servers, env)|, p.servers, env);
    hide Tells, Hops;
  }

  lemma EndOf(mem: seq<byte>, from: nat, upto: nat, count: nat, l: seq<Dispatch.Answer>, env: Dispatch.Env)
    requires Buffer(mem) && Tells(mem, from, upto, count, l, env)
    ensures Hops(mem, from, count) == upto
  {
  }

  // ---------------------------------------------------------------- in particular

  /** The PTR record of a service: the service type owns it, and it leads to the instance. */
  lemma PtrIsSent(mem: seq<byte>, from: nat, upto: nat, count: nat, l: seq<Dispatch.Answer>, env: Dispatch.Env, k: nat)
    requires Buffer(mem) && Tells(mem, from, upto, count, l, env) && k < |l| && l[k].atype == 12
    requires l[k].service.Some? && (l[k].host.Delegated? ==> l[k].host.host in env.hosts)
    ensures var s := l[k].service.value;
            exists i :: 0 <= i < count && Hops(mem, from, i) >= 0 &&
                        Carries(mem, Hops(mem, from, i), [s.service, s.proto, LOCAL], 12, 1,
                                if l[k].bye then 0 else 4500, [], [s.instance, s.service, s.proto, LOCAL])
  {
    var s := l[k].service.value;
    var x := Pointer(s.instance, s.service, s.proto, l[k].bye);
    assert Due(x, l[k], env);
    hide Due, Counts, Called, Hops, Carries;
    assert Told(mem, from, count, x);
    var i :| 0 <= i < count && At(mem, from, i, x);
  }

  /** A record is withdrawn, by a lifetime of zero, exactly in a goodbye; the pointer to a type never is. */
  lemma GoodbyeIsZero(x: Resource, a: Dispatch.Answer, env: Dispatch.Env)
    requires Due(x, a, env)
    ensures FormOf(x).ttl == 0 <==> a.bye && !x.TypePointer?
  {
  }
}
