/**
 `_mdns_dispatch_tx_packet`: a whole outgoing packet, from its lists of questions and answers to the
 octets handed to the network.
 */
module Dispatch {
  import opened Bytes
  import opened NameWriter
  import opened Framing
  import opened Records
  import Txt
  import opened Wire

  datatype Address = V4(octets: seq<byte>) | V6(octets: seq<byte>)

  /** `mdns_host_item_t` */
  datatype Host = Host(hostname: text, addresses: seq<Address>)

  /** The host an answer points to: none, the responder itself, or a delegated one. */
  datatype HostRef = NoHost | SelfHost | Delegated(host: Host)

  /** `mdns_out_answer_t`; `custom` holds instance, service and proto of a known answer. */
  datatype Answer = Answer(atype: nat, service: Txt.Option<Service>, host: HostRef,
                           custom: Txt.Option<(text, text, text)>, flush: bool, bye: bool)

  /** `mdns_out_question_t` */
  datatype Question = Question(host: Txt.Option<text>, service: Txt.Option<text>, proto: Txt.Option<text>,
                               domain: Txt.Option<text>, qtype: nat, unicast: bool)

  datatype OutPacket = OutPacket(id: nat, flags: nat, questions: seq<Question>, answers: seq<Answer>,
                                 servers: seq<Answer>, additional: seq<Answer>)

  /** The responder and the interface the packet leaves by. */
  datatype Env = Env(hostname: text, hosts: seq<Host>, ready4: bool, ip4: Txt.Option<seq<byte>>,
                     ready6: bool, ip6s: seq<seq<byte>>)

  // ---------------------------------------------------------------- what has to be sent

  function OptionalName(o: Txt.Option<text>): seq<text> {
    if o.Some? then [o.value] else []
  }

  function QuestionName(q: Question): seq<text> {
    OptionalName(q.host) + OptionalName(q.service) + OptionalName(q.proto) + OptionalName(q.domain)
  }

  function HostAddresses(host: Host, i: nat, four: bool, a: Answer): seq<Record>
    requires i <= |host.addresses|
    decreases |host.addresses| - i
  {
    if i == |host.addresses| then []
    else
      var rest := HostAddresses(host, i + 1, four, a);
      if host.addresses[i].V4? == four then
        var rtype := if four then TYPE_A else TYPE_AAAA;
        [AddressRecord(host.hostname, rtype, host.addresses[i].octets, a.flush, a.bye)] + rest
      else rest
  }

  function SelfAddresses(ips: seq<seq<byte>>, rtype: nat, a: Answer, env: Env): (rs: seq<Record>)
    ensures |rs| == |ips|
  {
    if ips == [] then []
    else [AddressRecord(env.hostname, rtype, ips[0], a.flush, a.bye)] + SelfAddresses(ips[1..], rtype, a, env)
  }

  function SubtypePointers(s: Service, i: nat, bye: bool): seq<Record>
    requires i <= |s.subtypes|
    decreases |s.subtypes| - i
  {
    if i == |s.subtypes| then []
    else [SubtypeRecord(s.instance, s.subtypes[i], s.service, s.proto, bye)] + SubtypePointers(s, i + 1, bye)
  }

  /** A delegated host that was removed meanwhile makes the answer void. */
  predicate HostKnown(a: Answer, env: Env) {
    a.host.Delegated? ==> a.host.host in env.hosts
  }

  function Pointers(a: Answer): seq<Record> {
    if a.service.Some? then
      var s := a.service.value;
      [PtrRecord(s.instance, s.service, s.proto, a.bye)] + SubtypePointers(s, 0, a.bye)
    else if a.custom.Some? then [PtrRecord(a.custom.value.0, a.custom.value.1, a.custom.value.2, a.bye)]
    else []
  }

  predicate IsSingle(atype: nat) {
    atype == TYPE_SRV || atype == TYPE_TXT || atype == TYPE_SDPTR
  }

  function Single(a: Answer, s: Service, env: Env): Record
    requires ServiceOk(s)
  {
    if a.atype == TYPE_SRV then SrvRecord(s, Target(s, env.hostname), a.flush, a.bye)
    else if a.atype == TYPE_TXT then TxtRecord(s, a.flush, a.bye)
    else SdptrRecord(s.service, s.proto, a.flush)
  }

  /** The responder's own addresses; without a host name there are none. */
  function OwnAddresses(a: Answer, env: Env): seq<Record> {
    if env.hostname == [] then []
    else if a.atype == TYPE_A then
      if env.ready4 && env.ip4.Some? then SelfAddresses([env.ip4.value], TYPE_A, a, env) else []
    else if env.ready6 then SelfAddresses(env.ip6s, TYPE_AAAA, a, env)
    else []
  }

  function Addresses(a: Answer, env: Env): seq<Record> {
    match a.host
    case NoHost => []
    case SelfHost => OwnAddresses(a, env)
    case Delegated(host) => HostAddresses(host, 0, a.atype == TYPE_A, a)
  }

  /** An SRV answer names a host. */
  predicate HasTarget(a: Answer, env: Env) {
    a.atype == TYPE_SRV && a.service.Some? ==> Target(a.service.value, env.hostname) != []
  }

  /** The records an answer stands for; what is left of an SRV record without a host is none. */
  function RecordsOf(a: Answer, env: Env): seq<Record>
    requires AnswerOk(a)
  {
    if !HostKnown(a, env) then []
    else if a.atype == TYPE_PTR then Pointers(a)
    else if IsSingle(a.atype) then
      if a.service.Some? && HasTarget(a, env) then [Single(a, a.service.value, env)] else []
    else if a.atype == TYPE_A || a.atype == TYPE_AAAA then Addresses(a, env)
    else []
  }

  predicate HostOk(host: Host) {
    && Name([host.hostname, LOCAL])
    && forall i :: 0 <= i < |host.addresses| ==>
         |host.addresses[i].octets| == if host.addresses[i].V4? then 4 else 16
  }

  predicate AnswerOk(a: Answer) {
    && (a.service.Some? ==> ServiceOk(a.service.value))
    && (a.host.Delegated? ==> HostOk(a.host.host))
    && (a.custom.Some? ==> Name([a.custom.value.0, a.custom.value.1, a.custom.value.2, LOCAL]))
  }

  /** A responder that has no host name yet has the empty one. */
  predicate EnvOk(env: Env) {
    && (env.hostname != [] ==> Name([env.hostname, LOCAL]))
    && (env.ip4.Some? ==> |env.ip4.value| == 4)
    && forall i :: 0 <= i < |env.ip6s| ==> |env.ip6s[i]| == 16
  }

  predicate QuestionOk(q: Question) {
    Name(QuestionName(q)) && Size(QuestionName(q)) + 5 < 0x100 && q.qtype < 0x10000
  }

  predicate PacketOk(p: OutPacket) {
    && p.id < 0x10000 && p.flags < 0x10000
    && (forall i :: 0 <= i < |p.questions| ==> QuestionOk(p.questions[i]))
    && AnswersOk(p.answers) && AnswersOk(p.servers) && AnswersOk(p.additional)
  }

  predicate AnswersOk(l: seq<Answer>) {
    forall i :: 0 <= i < |l| ==> AnswerOk(l[i])
  }

  function AllRecords(l: seq<Answer>, env: Env): seq<Record>
    requires AnswersOk(l)
  {
    if l == [] then [] else AllRecords(l[..|l| - 1], env) + RecordsOf(l[|l| - 1], env)
  }

  function Kinds(rs: seq<Record>): (ks: seq<Kind>)
    ensures |ks| == |rs|
  {
    if rs == [] then [] else [rs[0].kind] + Kinds(rs[1..])
  }

  // ---------------------------------------------------------------- runs of records

  /** The records of `rs`, one spelled behind the other. */
  ghost predicate SpelledAll(before: seq<byte>, after: seq<byte>, from: nat, upto: nat, rs: seq<Record>)
    decreases |rs|
  {
    if rs == [] then Buffer(before) && after == before && upto == from <= MAX
    else exists mid: seq<byte>, m: nat :: Behind(before, mid, after, from, m, upto, rs)
  }

  ghost predicate Behind(before: seq<byte>, mid: seq<byte>, after: seq<byte>, from: nat, m: nat, upto: nat,
                         rs: seq<Record>)
    requires rs != []
    decreases |rs|, 0
  {
    SpelledAll(before, mid, from, m, rs[..|rs| - 1]) && Spelled(mid, after, m, upto, rs[|rs| - 1])
  }

  lemma {:induction false} SpelledConcat(before: seq<byte>, mid: seq<byte>, after: seq<byte>,
                                         from: nat, m: nat, upto: nat, a: seq<Record>, b: seq<Record>)
    requires SpelledAll(before, mid, from, m, a) && SpelledAll(mid, after, m, upto, b)
    ensures SpelledAll(before, after, from, upto, a + b)
    decreases |b|
  {
    hide Spelled;
    if b == [] {
      assert a + b == a;
    } else {
      var x, i :| Behind(mid, x, after, m, i, upto, b);
      SpelledConcat(before, mid, x, from, m, i, a, b[..|b| - 1]);
      assert (a + b)[..|a + b| - 1] == a + b[..|b| - 1];
      assert Behind(before, x, after, from, i, upto, a + b);
    }
  }

  lemma SpelledOne(before: seq<byte>, after: seq<byte>, from: nat, upto: nat, r: Record)
    requires Spelled(before, after, from, upto, r)
    ensures SpelledAll(before, after, from, upto, [r])
  {
    hide Spelled;
    assert Buffer(before) && from <= MAX by { SpelledBounds(before, after, from, upto, r); }
    assert [r][..0] == [];
    assert SpelledAll(before, before, from, from, []);
    assert Behind(before, before, after, from, from, upto, [r]);
  }

  lemma SpelledBounds(before: seq<byte>, after: seq<byte>, from: nat, upto: nat, r: Record)
    requires Spelled(before, after, from, upto, r)
    ensures Buffer(before) && Buffer(after) && from <= upto <= MAX
  {
  }

  predicate RecordsOk(rs: seq<Record>) {
    forall i :: 0 <= i < |rs| ==> Labels(rs[i].owner) && Labels(rs[i].target)
  }

  lemma {:induction false} KindsSnoc(rs: seq<Record>, r: Record)
    ensures Kinds(rs + [r]) == Kinds(rs) + [r.kind]
  {
    if rs == [] {
      assert [] + [r] == [r] && [r][1..] == [];
    } else {
      assert (rs + [r])[1..] == rs[1..] + [r];
      KindsSnoc(rs[1..], r);
    }
  }

  /** Records spelled one behind the other are what the walk finds. */
  lemma {:induction false} SpelledWalks(before: seq<byte>, after: seq<byte>, from: nat, upto: nat, rs: seq<Record>)
    requires SpelledAll(before, after, from, upto, rs) && RecordsOk(rs)
    ensures Buffer(before) && Buffer(after) && from <= upto <= MAX
    ensures AgreeBelow(before, after, from)
    ensures WalkRecords(after, from, Kinds(rs)) == upto
    decreases |rs|
  {
    hide Spelled, SkipRecord;
    if rs != [] {
      var last := rs[|rs| - 1];
      var front := rs[..|rs| - 1];
      var mid, m :| Behind(before, mid, after, from, m, upto, rs);
      SpelledWalks(before, mid, from, m, front);
      assert RecordsOk([last]);
      SpelledBounds(mid, after, m, upto, last);
      SpelledIsFramed(mid, after, m, upto, last);
      WalkRecordsFrame(mid, after, from, Kinds(front));
      WalkRecordsMore(after, from, Kinds(front), [last.kind]);
      assert front + [last] == rs;
      KindsSnoc(front, last);
      assert WalkRecords(after, m, [last.kind]) == upto;
    }
  }

  // ---------------------------------------------------------------- room

  function BoundAll(rs: seq<Record>): nat {
    if rs == [] then 0 else BoundAll(rs[..|rs| - 1]) + Bound(rs[|rs| - 1])
  }

  lemma {:induction false} BoundConcat(a: seq<Record>, b: seq<Record>)
    ensures BoundAll(a + b) == BoundAll(a) + BoundAll(b)
    decreases |b|
  {
    if b == [] {
      assert a + b == a;
    } else {
      assert (a + b)[..|a + b| - 1] == a + b[..|b| - 1];
      BoundConcat(a, b[..|b| - 1]);
    }
  }

  lemma BoundNone()
    ensures BoundAll([]) == 0
  {
  }

  lemma BoundOne(r: Record)
    ensures BoundAll([r]) == Bound(r)
  {
    assert [r][..0] == [];
  }

  /** Two runs of records, one behind the other, with their counts. */
  lemma DeliveredConcat(before: seq<byte>, mid: seq<byte>, after: seq<byte>, from: nat, m: nat, upto: nat,
                        a: seq<Record>, b: seq<Record>, count: nat, more: nat)
    requires Delivered(before, mid, from, m, count, a) && Delivered(mid, after, m, upto, more, b)
    ensures Delivered(before, after, from, upto, (count + more) % 0x100, a + b)
  {
    hide SpelledAll;
    SpelledConcat(before, mid, after, from, m, upto, a, b);
    SumOfCounts(|a|, |b|);
  }

  lemma SumOfCounts(a: nat, b: nat)
    ensures (a % 0x100 + b % 0x100) % 0x100 == (a + b) % 0x100
  {
    var s := a % 0x100 + b % 0x100;
    OctetIs(a + b, a / 0x100 + b / 0x100 + s / 0x100, s % 0x100);
  }

  lemma DeliveredOne(before: seq<byte>, after: seq<byte>, from: nat, upto: nat, r: Record)
    requires Spelled(before, after, from, upto, r)
    ensures Delivered(before, after, from, upto, 1, [r])
  {
    hide Spelled, SpelledAll;
    SpelledOne(before, after, from, upto, r);
  }

  lemma DeliveredNone(before: seq<byte>, from: nat)
    requires Buffer(before) && from <= MAX
    ensures Delivered(before, before, from, from, 0, [])
  {
  }

  lemma NoneYet(before: seq<byte>, from: nat)
    requires Buffer(before) && from <= MAX
    ensures SpelledAll(before, before, from, from, [])
  {
  }

  // ---------------------------------------------------------------- appending answers

  ghost predicate Delivered(before: seq<byte>, after: seq<byte>, from: nat, upto: nat, count: nat, rs: seq<Record>) {
    SpelledAll(before, after, from, upto, rs) && count == |rs| % 0x100
  }

  method PutSubtypes(packet: array<byte>, index: nat, s: Service, i: nat, bye: bool)
    returns (newIndex: nat, count: nat, ghost whole: bool)
    requires packet.Length == MAX + 1 && index <= MAX && ServiceOk(s) && i <= |s.subtypes|
    modifies packet
    ensures index <= newIndex <= MAX && AgreeBelow(old(packet[..]), packet[..], index)
    ensures var rs := SubtypePointers(s, i, bye);
            && (whole ==> Delivered(old(packet[..]), packet[..], index, newIndex, count, rs))
            && (index + BoundAll(rs) < MAX ==> whole && newIndex <= index + BoundAll(rs))
    decreases |s.subtypes| - i
  {
    hide Spelled, Delivered, AppendFqdn, Bound, BoundAll, SubtypePointers;
    SubtypeStep(s, i, bye);
    if i == |s.subtypes| {
      DeliveredNone(packet[..], index);
      return index, 0, true;
    }
    ghost var before := packet[..];
    ghost var r := SubtypeRecord(s.instance, s.subtypes[i], s.service, s.proto, bye);
    var len, more;
    newIndex, len, whole := PutSubtypePtrRecord(packet, index, s.instance, s.subtypes[i], s.service, s.proto, bye);
    ghost var mid := packet[..];
    ghost var m := newIndex;
    ghost var rest := SubtypePointers(s, i + 1, bye);
    BoundConcat([r], rest);
    BoundOne(r);
    ghost var tail;
    newIndex, more, tail := PutSubtypes(packet, newIndex, s, i + 1, bye);
    count := ((if len > 0 then 1 else 0) + more) % 0x100;
    if whole && tail {
      DeliveredOne(before, mid, index, m, r);
      DeliveredConcat(before, mid, packet[..], index, m, newIndex, [r], rest, 1, more);
    }
    whole := whole && tail;
  }

  lemma SubtypeStep(s: Service, i: nat, bye: bool)
    requires i <= |s.subtypes|
    ensures SubtypePointers(s, i, bye) ==
            if i == |s.subtypes| then []
            else [SubtypeRecord(s.instance, s.subtypes[i], s.service, s.proto, bye)] + SubtypePointers(s, i + 1, bye)
  {
  }

  /** `_mdns_append_service_ptr_answers` */
  method PutServicePtrAnswers(packet: array<byte>, index: nat, s: Service, bye: bool)
    returns (newIndex: nat, count: nat, ghost whole: bool)
    requires packet.Length == MAX + 1 && index <= MAX && ServiceOk(s)
    modifies packet
    ensures index <= newIndex <= MAX && AgreeBelow(old(packet[..]), packet[..], index)
    ensures var rs := [PtrRecord(s.instance, s.service, s.proto, bye)] + SubtypePointers(s, 0, bye);
            && (whole ==> Delivered(old(packet[..]), packet[..], index, newIndex, count, rs))
            && (index + BoundAll(rs) < MAX ==> whole && newIndex <= index + BoundAll(rs))
  {
    hide Spelled, Delivered, AppendFqdn, Bound, BoundAll;
    ghost var before := packet[..];
    ghost var r := PtrRecord(s.instance, s.service, s.proto, bye);
    ghost var rest := SubtypePointers(s, 0, bye);
    BoundConcat([r], rest);
    BoundOne(r);
    ShorterName(s.instance, [s.service, s.proto, LOCAL]);
    var len, more;
    newIndex, len, whole := PutPtrRecord(packet, index, s.instance, s.service, s.proto, bye);
    if len == 0 {
      return newIndex, 0, false;
    }
    ghost var mid := packet[..];
    ghost var m := newIndex;
    ghost var tail;
    newIndex, more, tail := PutSubtypes(packet, newIndex, s, 0, bye);
    count := (1 + more) % 0x100;
    if whole && tail {
      DeliveredOne(before, mid, index, m, r);
      DeliveredConcat(before, mid, packet[..], index, m, newIndex, [r], rest, 1, more);
    }
    whole := whole && tail;
  }

  method PutAddress(packet: array<byte>, index: nat, host: text, ip: seq<byte>, four: bool, a: Answer)
    returns (newIndex: nat, len: nat, ghost whole: bool)
    requires packet.Length == MAX + 1 && index <= MAX && Name([host, LOCAL]) && |ip| == if four then 4 else 16
    modifies packet
    ensures index <= newIndex <= MAX && AgreeBelow(old(packet[..]), packet[..], index)
    ensures whole ==> len > 0
    ensures var r := AddressRecord(host, if four then TYPE_A else TYPE_AAAA, ip, a.flush, a.bye);
            && (whole ==> Spelled(old(packet[..]), packet[..], index, newIndex, r))
            && (index + Bound(r) < MAX ==> whole && newIndex < index + Bound(r))
  {
    hide Spelled, Bound;
    if four {
      newIndex, len, whole := PutARecord(packet, index, host, ip, a.flush, a.bye);
    } else {
      newIndex, len, whole := PutAaaaRecord(packet, index, host, ip, a.flush, a.bye);
    }
  }

  /** `_mdns_append_host_answer`, from the `i`-th address on: it stops at the first record refused. */
  method PutHostAnswer(packet: array<byte>, index: nat, host: Host, i: nat, four: bool, a: Answer)
    returns (newIndex: nat, count: nat, ghost whole: bool)
    requires packet.Length == MAX + 1 && index <= MAX && HostOk(host) && i <= |host.addresses|
    modifies packet
    ensures index <= newIndex <= MAX && AgreeBelow(old(packet[..]), packet[..], index)
    ensures var rs := HostAddresses(host, i, four, a);
            && (whole ==> Delivered(old(packet[..]), packet[..], index, newIndex, count, rs))
            && (index + BoundAll(rs) < MAX ==> whole && newIndex <= index + BoundAll(rs))
    decreases |host.addresses| - i
  {
    hide Spelled, Delivered, AppendFqdn, Bound, BoundAll;
    if i == |host.addresses| {
      DeliveredNone(packet[..], index);
      BoundNone();
      return index, 0, true;
    }
    if host.addresses[i].V4? != four {
      newIndex, count, whole := PutHostAnswer(packet, index, host, i + 1, four, a);
      return;
    }
    ghost var before := packet[..];
    var ip := host.addresses[i].octets;
    ghost var r := AddressRecord(host.hostname, if four then TYPE_A else TYPE_AAAA, ip, a.flush, a.bye);
    ghost var rest := HostAddresses(host, i + 1, four, a);
    BoundConcat([r], rest);
    BoundOne(r);
    var len, more;
    newIndex, len, whole := PutAddress(packet, index, host.hostname, ip, four, a);
    if len == 0 {
      return newIndex, 0, false;
    }
    ghost var mid := packet[..];
    ghost var m := newIndex;
    ghost var tail;
    newIndex, more, tail := PutHostAnswer(packet, newIndex, host, i + 1, four, a);
    count := (1 + more) % 0x100;
    if whole && tail {
      DeliveredOne(before, mid, index, m, r);
      DeliveredConcat(before, mid, packet[..], index, m, newIndex, [r], rest, 1, more);
    }
    whole := whole && tail;
  }

  predicate Zero(ip: seq<byte>) {
    forall i :: 0 <= i < |ip| ==> ip[i] == 0
  }

  /** The responder's own IPv6 addresses: a zero address or a refused record voids the count. */
  method PutSelfV6(packet: array<byte>, index: nat, ips: seq<seq<byte>>, a: Answer, env: Env)
    returns (ok: bool, newIndex: nat, ghost whole: bool)
    requires packet.Length == MAX + 1 && index <= MAX && Name([env.hostname, LOCAL])
    requires forall i :: 0 <= i < |ips| ==> |ips[i]| == 16
    modifies packet
    ensures index <= newIndex <= MAX && AgreeBelow(old(packet[..]), packet[..], index)
    ensures whole ==> ok
    ensures var rs := SelfAddresses(ips, TYPE_AAAA, a, env);
            && (whole ==> SpelledAll(old(packet[..]), packet[..], index, newIndex, rs))
            && (index + BoundAll(rs) < MAX && (forall i :: 0 <= i < |ips| ==> !Zero(ips[i])) ==>
                  whole && newIndex <= index + BoundAll(rs))
    decreases |ips|
  {
    hide Spelled, SpelledAll, AppendFqdn, Bound;
    if ips == [] {
      NoneYet(packet[..], index);
      return true, index, true;
    }
    if Zero(ips[0]) {
      return false, index, false;
    }
    ghost var before := packet[..];
    ghost var r := AddressRecord(env.hostname, TYPE_AAAA, ips[0], a.flush, a.bye);
    ghost var rest := SelfAddresses(ips[1..], TYPE_AAAA, a, env);
    BoundConcat([r], rest);
    BoundOne(r);
    var len;
    newIndex, len, whole := PutAaaaRecord(packet, index, env.hostname, ips[0], a.flush, a.bye);
    if len == 0 {
      return false, newIndex, false;
    }
    ghost var mid := packet[..];
    ghost var m := newIndex;
    ghost var tail;
    ok, newIndex, tail := PutSelfV6(packet, newIndex, ips[1..], a, env);
    if whole && tail {
      SpelledOne(before, mid, index, m, r);
      SpelledConcat(before, mid, packet[..], index, m, newIndex, [r], rest);
    }
    whole := whole && tail;
  }

  predicate NoZeroAddress(env: Env) {
    forall i :: 0 <= i < |env.ip6s| ==> !Zero(env.ip6s[i])
  }

  predicate AllHaveTargets(l: seq<Answer>, env: Env) {
    forall i :: 0 <= i < |l| ==> HasTarget(l[i], env)
  }

  /** The answers made of a single record. */
  method PutSingle(packet: array<byte>, index: nat, a: Answer, s: Service, env: Env)
    returns (newIndex: nat, count: nat, ghost whole: bool)
    requires packet.Length == MAX + 1 && index <= MAX && ServiceOk(s) && EnvOk(env) && IsSingle(a.atype)
    modifies packet
    ensures index <= newIndex <= MAX && AgreeBelow(old(packet[..]), packet[..], index)
    ensures whole && a.atype == TYPE_SRV ==> Target(s, env.hostname) != []
    ensures var r := Single(a, s, env);
            && (whole ==> Delivered(old(packet[..]), packet[..], index, newIndex, count, [r]))
            && (index + BoundAll([r]) < MAX && (a.atype == TYPE_SRV ==> Target(s, env.hostname) != []) ==>
                  whole && newIndex <= index + BoundAll([r]))
  {
    hide Spelled, Delivered, AppendFqdn, Bound, BoundAll;
    ghost var before := packet[..];
    ghost var r := Single(a, s, env);
    BoundOne(r);
    var len;
    if a.atype == TYPE_SRV {
      newIndex, len, whole := PutSrvRecord(packet, index, s, env.hostname, a.flush, a.bye);
    } else if a.atype == TYPE_TXT {
      newIndex, len, whole := PutTxtRecord(packet, index, s, a.flush, a.bye);
    } else {
      newIndex, len, whole := PutSdptrRecord(packet, index, s, a.flush);
    }
    if whole { DeliveredOne(before, packet[..], index, newIndex, r); }
    count := if len > 0 then 1 else 0;
  }

  /** The PTR branch of `_mdns_append_answer`. */
  method PutPointers(packet: array<byte>, index: nat, a: Answer)
    returns (newIndex: nat, count: nat, ghost whole: bool)
    requires packet.Length == MAX + 1 && index <= MAX && AnswerOk(a)
    modifies packet
    ensures index <= newIndex <= MAX && AgreeBelow(old(packet[..]), packet[..], index)
    ensures var rs := Pointers(a);
            && (whole ==> Delivered(old(packet[..]), packet[..], index, newIndex, count, rs))
            && (index + BoundAll(rs) < MAX ==> whole && newIndex <= index + BoundAll(rs))
  {
    hide Spelled, Delivered, AppendFqdn, Bound, BoundAll;
    if a.service.Some? {
      newIndex, count, whole := PutServicePtrAnswers(packet, index, a.service.value, a.bye);
      return;
    }
    if a.custom.None? {
      DeliveredNone(packet[..], index);
      BoundNone();
      return index, 0, true;
    }
    ghost var before := packet[..];
    var c := a.custom.value;
    ghost var r := PtrRecord(c.0, c.1, c.2, a.bye);
    BoundOne(r);
    ShorterName(c.0, [c.1, c.2, LOCAL]);
    var len;
    newIndex, len, whole := PutPtrRecord(packet, index, c.0, c.1, c.2, a.bye);
    if whole { DeliveredOne(before, packet[..], index, newIndex, r); }
    count := if len > 0 then 1 else 0;
  }

  /** The own addresses; the record builders return at once when there is no host name. */
  method PutOwnAddresses(packet: array<byte>, index: nat, a: Answer, env: Env)
    returns (newIndex: nat, count: nat, ghost whole: bool)
    requires packet.Length == MAX + 1 && index <= MAX && EnvOk(env)
    modifies packet
    ensures index <= newIndex <= MAX && AgreeBelow(old(packet[..]), packet[..], index)
    ensures var rs := OwnAddresses(a, env);
            && (whole ==> Delivered(old(packet[..]), packet[..], index, newIndex, count, rs))
            && (index + BoundAll(rs) < MAX && NoZeroAddress(env) ==> whole && newIndex <= index + BoundAll(rs))
  {
    hide Spelled, SpelledAll, AppendFqdn, Bound, BoundAll;
    if env.hostname == [] || (if a.atype == TYPE_A then !env.ready4 || env.ip4.None? else !env.ready6) {
      DeliveredNone(packet[..], index);
      BoundNone();
      return index, 0, true;
    }
    if a.atype == TYPE_A {
      ghost var before := packet[..];
      ghost var r := AddressRecord(env.hostname, TYPE_A, env.ip4.value, a.flush, a.bye);
      BoundOne(r);
      assert SelfAddresses([env.ip4.value], TYPE_A, a, env) == [r];
      var len;
      newIndex, len, whole := PutARecord(packet, index, env.hostname, env.ip4.value, a.flush, a.bye);
      if whole { DeliveredOne(before, packet[..], index, newIndex, r); }
      count := if len > 0 then 1 else 0;
    } else {
      var ok;
      ok, newIndex, whole := PutSelfV6(packet, index, env.ip6s, a, env);
      count := if ok then |env.ip6s| % 0x100 else 0;
    }
  }

  /** `_mdns_append_answer` */
  method PutAnswer(packet: array<byte>, index: nat, a: Answer, env: Env)
    returns (newIndex: nat, count: nat, ghost whole: bool)
    requires packet.Length == MAX + 1 && index <= MAX && AnswerOk(a) && EnvOk(env)
    modifies packet
    ensures index <= newIndex <= MAX && AgreeBelow(old(packet[..]), packet[..], index)
    ensures var rs := RecordsOf(a, env);
            && (whole ==> Delivered(old(packet[..]), packet[..], index, newIndex, count, rs))
            && (index + BoundAll(rs) < MAX && NoZeroAddress(env) && HasTarget(a, env) ==>
                  whole && newIndex <= index + BoundAll(rs))
  {
    hide Spelled, Delivered, BoundAll, Pointers, Single, OwnAddresses, HostAddresses, NoZeroAddress, EnvOk, HostOk;
    if !a.host.Delegated? || a.host.host in env.hosts {
      if a.atype == TYPE_PTR {
        newIndex, count, whole := PutPointers(packet, index, a);
        return;
      }
      if IsSingle(a.atype) {
        if a.service.Some? {
          newIndex, count, whole := PutSingle(packet, index, a, a.service.value, env);
          return;
        }
      } else if a.atype == TYPE_A || a.atype == TYPE_AAAA {
        if a.host.SelfHost? {
          newIndex, count, whole := PutOwnAddresses(packet, index, a, env);
          return;
        }
        if a.host.Delegated? {
          newIndex, count, whole := PutHostAnswer(packet, index, a.host.host, 0, a.atype == TYPE_A, a);
          return;
        }
      }
    }
    DeliveredNone(packet[..], index);
    BoundNone();
    return index, 0, true;
  }

  /** One of the three answer loops of the dispatcher. */
  method PutAnswers(packet: array<byte>, index: nat, l: seq<Answer>, env: Env)
    returns (newIndex: nat, count: nat, ghost whole: bool)
    requires packet.Length == MAX + 1 && index <= MAX && AnswersOk(l) && EnvOk(env)
    modifies packet
    ensures index <= newIndex <= MAX && count < 0x100 && AgreeBelow(old(packet[..]), packet[..], index)
    ensures var rs := AllRecords(l, env);
            && (whole ==> Delivered(old(packet[..]), packet[..], index, newIndex, count, rs))
            && (index + BoundAll(rs) < MAX && NoZeroAddress(env) && AllHaveTargets(l, env) ==>
                  whole && newIndex <= index + BoundAll(rs))
  {
    hide Spelled, RecordsOf, Delivered, Bound, BoundAll, NoZeroAddress, HasTarget;
    newIndex, count, whole := index, 0, true;
    ghost var before := packet[..];
    DeliveredNone(before, index);
    BoundNone();
    assert l[..0] == [];
    for i := 0 to |l|
      invariant index <= newIndex <= MAX && count < 0x100 && AgreeBelow(before, packet[..], index)
      invariant AnswersOk(l[..i])
      invariant whole ==> Delivered(before, packet[..], index, newIndex, count, AllRecords(l[..i], env))
      invariant index + BoundAll(AllRecords(l[..i], env)) < MAX && NoZeroAddress(env) && AllHaveTargets(l, env) ==>
                  whole && newIndex <= index + BoundAll(AllRecords(l[..i], env))
    {
      ghost var mid := packet[..];
      ghost var m := newIndex;
      ghost var done := AllRecords(l[..i], env);
      ghost var next := RecordsOf(l[i], env);
      assert l[..i + 1][..i] == l[..i];
      assert AllRecords(l[..i + 1], env) == done + next;
      BoundConcat(done, next);
      var c;
      ghost var part;
      newIndex, c, part := PutAnswer(packet, newIndex, l[i], env);
      if whole && part {
        DeliveredConcat(before, mid, packet[..], index, m, newIndex, done, next, count, c);
      }
      whole := whole && part;
      count := (count + c) % 0x100;
    }
    assert l[..|l|] == l;
  }

  // ---------------------------------------------------------------- questions

  /** `after` holds the question: its name as the name writer leaves it, then type and class. */
  ghost predicate Asks(before: seq<byte>, after: seq<byte>, from: nat, upto: nat, q: Question) {
    && Buffer(before) && Buffer(after) && from + 4 <= upto <= MAX && Strings(QuestionName(q))
    && U16At(after, upto - 4) == q.qtype && U16At(after, upto - 2) == (if q.unicast then 0x8001 else 0x0001)
    && var w := AppendFqdn(before, from, QuestionName(q));
       w.whole && w.index == upto - 4 && AgreeBelow(w.mem, after, w.index)
  }

  /** The questions of `l`, one behind the other. */
  ghost predicate AsksAll(before: seq<byte>, after: seq<byte>, from: nat, upto: nat, l: seq<Question>)
    decreases |l|
  {
    if l == [] then Buffer(before) && after == before && upto == from <= MAX
    else exists mid: seq<byte>, m: nat :: AskedBehind(before, mid, after, from, m, upto, l)
  }

  ghost predicate AskedBehind(before: seq<byte>, mid: seq<byte>, after: seq<byte>, from: nat, m: nat, upto: nat,
                              l: seq<Question>)
    requires l != []
    decreases |l|, 0
  {
    AsksAll(before, mid, from, m, l[..|l| - 1]) && Asks(mid, after, m, upto, l[|l| - 1])
  }

  lemma AsksMore(before: seq<byte>, mid: seq<byte>, after: seq<byte>, from: nat, m: nat, upto: nat, l: seq<Question>)
    requires l != [] && AsksAll(before, mid, from, m, l[..|l| - 1]) && Asks(mid, after, m, upto, l[|l| - 1])
    ensures AsksAll(before, after, from, upto, l)
  {
    hide Asks;
    assert AskedBehind(before, mid, after, from, m, upto, l);
  }

  lemma AsksNone(before: seq<byte>, from: nat)
    requires Buffer(before) && from <= MAX
    ensures AsksAll(before, before, from, from, [])
  {
  }

  /** `_mdns_append_question`; the caller only looks whether the returned length is zero. */
  method PutQuestion(packet: array<byte>, index: nat, q: Question)
    returns (newIndex: nat, len: nat, ghost whole: bool)
    requires packet.Length == MAX + 1 && index <= MAX && QuestionOk(q)
    modifies packet
    ensures index <= newIndex <= MAX && AgreeBelow(old(packet[..]), packet[..], index)
    ensures whole ==> len == newIndex - index > 0 && index + 6 <= newIndex
    ensures whole ==> SkipQuestion(packet[..], index) == newIndex
    ensures whole ==> Asks(old(packet[..]), packet[..], index, newIndex, q)
    ensures index + QuestionBound(q) < MAX ==> whole && newIndex <= index + QuestionBound(q)
  {
    hide AppendFqdn, SkipName, Size, U16At, QuestionName;
    var name := QuestionName(q);
    ghost var before := packet[..];
    ghost var w := AppendFqdn(before, index, name);
    NameIsFramed(before, index, name);
    if index + Size(name) < MAX { NameFits(before, index, name); }
    var i, r := PutFqdn(packet, index, name);
    if r % 0x100 == 0 {
      return i, 0, false;
    }
    ghost var named := packet[..];
    var n;
    newIndex, n := PutTypeAndClass(packet, i, q.qtype, if q.unicast then 0x8001 else 0x0001);
    len := (r % 0x100 + n) % 0x100;
    whole := w.whole && n == 4;
    if whole {
      SkipNameFrame(named, packet[..], index);
    }
  }

  /** The two fields behind the name of a question. */
  method PutTypeAndClass(packet: array<byte>, index: nat, qtype: nat, qclass: nat) returns (newIndex: nat, n: nat)
    requires packet.Length == MAX + 1 && index <= MAX && qtype < 0x10000 && qclass < 0x10000
    modifies packet
    ensures index <= newIndex <= MAX && AgreeBelow(old(packet[..]), packet[..], index) && n <= 4
    ensures n == 4 ==> newIndex == index + 4
    ensures n == 4 ==> U16At(packet[..], index) == qtype && U16At(packet[..], index + 2) == qclass
    ensures index + 4 <= MAX ==> n == 4
  {
    var t, c;
    newIndex, t := PutU16(packet, index, qtype);
    newIndex, c := PutU16(packet, newIndex, qclass);
    n := t + c;
  }

  function QuestionBound(q: Question): nat {
    Size(QuestionName(q)) + 5
  }

  function QuestionsBound(l: seq<Question>): nat {
    if l == [] then 0 else QuestionsBound(l[..|l| - 1]) + QuestionBound(l[|l| - 1])
  }

  predicate QuestionsOk(l: seq<Question>) {
    forall i :: 0 <= i < |l| ==> QuestionOk(l[i])
  }

  lemma WalkNone(mem: seq<byte>, pos: nat)
    requires Buffer(mem)
    ensures WalkQuestions(mem, pos, 0) == pos
  {
  }

  method PutQuestions(packet: array<byte>, index: nat, l: seq<Question>)
    returns (newIndex: nat, count: nat, ghost whole: bool)
    requires packet.Length == MAX + 1 && index <= MAX && QuestionsOk(l)
    modifies packet
    ensures index <= newIndex <= MAX && count < 0x100 && AgreeBelow(old(packet[..]), packet[..], index)
    ensures whole ==> count == |l| % 0x100 && WalkQuestions(packet[..], index, |l|) == newIndex
    ensures whole ==> index + 6 * |l| <= newIndex && AsksAll(old(packet[..]), packet[..], index, newIndex, l)
    ensures index + QuestionsBound(l) < MAX ==> whole && newIndex <= index + QuestionsBound(l)
  {
    hide SkipQuestion, QuestionBound, AppendFqdn, U16At, WalkQuestions, QuestionOk, Asks, AsksAll;
    AsksNone(packet[..], index);
    assert l[..0] == [];
    assert WalkQuestions(packet[..], index, 0) == index by { WalkNone(packet[..], index); }
    newIndex, count, whole := index, 0, true;
    ghost var before := packet[..];
    for i := 0 to |l|
      invariant index <= newIndex <= MAX && count < 0x100 && AgreeBelow(before, packet[..], index)
      invariant whole ==> count == i % 0x100 && index + 6 * i <= newIndex
      invariant whole ==> WalkQuestions(packet[..], index, i) == newIndex
      invariant whole ==> AsksAll(before, packet[..], index, newIndex, l[..i])
      invariant index + QuestionsBound(l[..i]) < MAX ==> whole && newIndex <= index + QuestionsBound(l[..i])
    {
      ghost var mid := packet[..];
      ghost var m := newIndex;
      assert l[..i + 1][..i] == l[..i] && l[..i + 1][i] == l[i];
      var len;
      ghost var part;
      newIndex, len, part := PutQuestion(packet, newIndex, l[i]);
      if whole && part {
        AsksMore(before, mid, packet[..], index, m, newIndex, l[..i + 1]);
        WalkQuestionsFrame(mid, packet[..], index, i);
        WalkQuestionsMore(packet[..], index, i);
      }
      whole := whole && part;
      if len > 0 {
        count := (count + 1) % 0x100;
      }
    }
    assert l[..|l|] == l;
  }

  // ---------------------------------------------------------------- the packet

  /** Octets the packet takes uncompressed, with one to spare per record. */
  function PacketBound(p: OutPacket, env: Env): nat
    requires PacketOk(p) && EnvOk(env)
  {
    HEAD_LEN + QuestionsBound(p.questions) + SectionsBound(p, env)
  }

  function SectionsBound(p: OutPacket, env: Env): nat
    requires PacketOk(p) && EnvOk(env)
  {
    BoundAll(AllRecords(p.answers, env)) + BoundAll(AllRecords(p.servers, env))
      + BoundAll(AllRecords(p.additional, env))
  }

  /** Every SRV answer of the packet names a host. */
  predicate TargetsKnown(p: OutPacket, env: Env) {
    AllHaveTargets(p.answers, env) && AllHaveTargets(p.servers, env) && AllHaveTargets(p.additional, env)
  }

  /** All records of the packet, in the order of its sections. */
  function PacketRecords(p: OutPacket, env: Env): seq<Record>
    requires PacketOk(p) && EnvOk(env)
  {
    AllRecords(p.answers, env) + AllRecords(p.servers, env) + AllRecords(p.additional, env)
  }

  /**
   A message of section 4.1 of RFC 1035 that ends at `index`: the header counts are the numbers of
   questions and records, and a walk over that many of them, record by record of the expected kind,
   ends exactly at `index`.
   */
  ghost predicate WellFramed(mem: seq<byte>, index: nat, p: OutPacket, env: Env)
    requires PacketOk(p) && EnvOk(env)
  {
    && Buffer(mem)
    && U16At(mem, 0) == p.id && U16At(mem, 2) == p.flags
    && U16At(mem, 4) == |p.questions|
    && U16At(mem, 6) == |AllRecords(p.answers, env)|
    && U16At(mem, 8) == |AllRecords(p.servers, env)|
    && U16At(mem, 10) == |AllRecords(p.additional, env)|
    && var q := WalkQuestions(mem, HEAD_LEN, |p.questions|);
       q >= 0 && WalkRecords(mem, q, Kinds(PacketRecords(p, env))) == index
  }

  /** The buffer in front of and behind the writes of one section, and where it lies. */
  datatype Stage = Stage(before: seq<byte>, after: seq<byte>, from: nat, upto: nat)

  /** What the stages of a packet hold is what the packet holds, but for the header. */
  ghost predicate Keeps(mem: seq<byte>, s: Stage) {
    AgreeOn(s.after, mem, HEAD_LEN, s.upto)
  }

  ghost predicate AnswersIn(mem: seq<byte>, s: Stage, l: seq<Answer>, env: Env)
    requires AnswersOk(l)
  {
    SpelledAll(s.before, s.after, s.from, s.upto, AllRecords(l, env)) && Keeps(mem, s)
  }

  datatype Sections = Sections(answers: Stage, servers: Stage, additional: Stage)

  /** The three answer sections, one behind the other, each record spelled where it stands. */
  ghost predicate SectionsIn(mem: seq<byte>, from: nat, upto: nat, t: Sections, p: OutPacket, env: Env)
    requires PacketOk(p)
  {
    && from == t.answers.from && t.answers.upto == t.servers.from && t.servers.upto == t.additional.from
    && t.additional.upto == upto
    && AnswersIn(mem, t.answers, p.answers, env) && AnswersIn(mem, t.servers, p.servers, env)
    && AnswersIn(mem, t.additional, p.additional, env)
  }

  /** The whole packet: every question and every record is spelled in it, in order and without a gap. */
  ghost predicate LaidOut(mem: seq<byte>, index: nat, q: Stage, t: Sections, p: OutPacket, env: Env)
    requires PacketOk(p)
  {
    && q.from == HEAD_LEN && AsksAll(q.before, q.after, q.from, q.upto, p.questions) && Keeps(mem, q)
    && SectionsIn(mem, q.upto, index, t, p, env)
  }

  lemma {:induction false} KindsConcat(a: seq<Record>, b: seq<Record>)
    ensures Kinds(a + b) == Kinds(a) + Kinds(b)
    decreases |a|
  {
    if a == [] {
      assert a + b == b;
    } else {
      assert (a + b)[1..] == a[1..] + b;
      KindsConcat(a[1..], b);
    }
  }

  lemma {:induction false} SubtypesLabelled(s: Service, i: nat, bye: bool)
    requires ServiceOk(s) && i <= |s.subtypes|
    ensures RecordsOk(SubtypePointers(s, i, bye))
    decreases |s.subtypes| - i
  {
    if i < |s.subtypes| {
      assert Name([s.subtypes[i], SUB, s.service, s.proto, LOCAL]);
      SubtypesLabelled(s, i + 1, bye);
    }
  }

  lemma {:induction false} HostLabelled(host: Host, i: nat, four: bool, a: Answer)
    requires HostOk(host) && i <= |host.addresses|
    ensures RecordsOk(HostAddresses(host, i, four, a))
    decreases |host.addresses| - i
  {
    if i < |host.addresses| {
      HostLabelled(host, i + 1, four, a);
    }
  }

  lemma {:induction false} SelfLabelled(ips: seq<seq<byte>>, rtype: nat, a: Answer, env: Env)
    requires Name([env.hostname, LOCAL])
    ensures RecordsOk(SelfAddresses(ips, rtype, a, env))
  {
    if ips != [] {
      SelfLabelled(ips[1..], rtype, a, env);
    }
  }

  lemma ServiceTail(x: text, y: text, z: text)
    requires Name([x, y, z, LOCAL])
    ensures Labels([y, z, LOCAL])
  {
    var all := [x, y, z, LOCAL];
    forall i | 0 <= i < 3 ensures 1 <= |[y, z, LOCAL][i]| <= 63 { assert [y, z, LOCAL][i] == all[i + 1]; }
  }

  lemma PointersLabelled(a: Answer)
    requires AnswerOk(a)
    ensures RecordsOk(Pointers(a))
  {
    hide Size;
    if a.service.Some? {
      var s := a.service.value;
      SubtypesLabelled(s, 0, a.bye);
      ServiceTail(s.instance, s.service, s.proto);
    } else if a.custom.Some? {
      ServiceTail(a.custom.value.0, a.custom.value.1, a.custom.value.2);
    }
  }

  lemma SingleLabelled(a: Answer, s: Service, env: Env)
    requires ServiceOk(s) && EnvOk(env) && IsSingle(a.atype)
    requires a.atype == TYPE_SRV ==> Target(s, env.hostname) != []
    ensures RecordsOk([Single(a, s, env)])
  {
    hide Size, Txt.Encode;
    ServiceTail(s.instance, s.service, s.proto);
    SdOwner();
  }

  lemma AddressesLabelled(a: Answer, env: Env)
    requires AnswerOk(a) && EnvOk(env)
    ensures RecordsOk(Addresses(a, env))
  {
    hide Size, HostOk, ServiceOk;
    if a.host.Delegated? { HostLabelled(a.host.host, 0, a.atype == TYPE_A, a); }
    else if a.host.SelfHost? && env.hostname != [] {
      if a.atype == TYPE_A && env.ip4.Some? { SelfLabelled([env.ip4.value], TYPE_A, a, env); }
      SelfLabelled(env.ip6s, TYPE_AAAA, a, env);
    }
  }

  lemma RecordsLabelled(a: Answer, env: Env)
    requires AnswerOk(a) && EnvOk(env)
    ensures RecordsOk(RecordsOf(a, env))
  {
    hide EnvOk, ServiceOk, HostOk, Pointers, Single, Addresses, Size;
    PointersLabelled(a);
    if a.service.Some? && IsSingle(a.atype) && HasTarget(a, env) { SingleLabelled(a, a.service.value, env); }
    AddressesLabelled(a, env);
  }

  lemma {:induction false} AllLabelled(l: seq<Answer>, env: Env)
    requires AnswersOk(l) && EnvOk(env)
    ensures RecordsOk(AllRecords(l, env))
    decreases |l|
  {
    hide RecordsOf, AnswerOk;
    if l != [] {
      AllLabelled(l[..|l| - 1], env);
      RecordsLabelled(l[|l| - 1], env);
    }
  }

  /** A section that was spelled completely: its walk, and a count that did not wrap. */
  lemma SectionWalks(before: seq<byte>, after: seq<byte>, from: nat, upto: nat, count: nat, l: seq<Answer>, env: Env)
    requires AnswersOk(l) && EnvOk(env)
    requires Delivered(before, after, from, upto, count, AllRecords(l, env))
    ensures Buffer(after) && from <= upto <= MAX && AgreeBelow(before, after, from)
    ensures WalkRecords(after, from, Kinds(AllRecords(l, env))) == upto
    ensures count == |AllRecords(l, env)|
  {
    hide SpelledAll, AllRecords, EnvOk, AnswersOk, WalkRecords;
    AllLabelled(l, env);
    SpelledWalks(before, after, from, upto, AllRecords(l, env));
  }

  /** Two walks in a row over a buffer whose header was written last. */
  lemma TwoWalks(mid: seq<byte>, after: seq<byte>, from: nat, m: nat, upto: nat, a: seq<Record>, b: seq<Record>)
    requires Buffer(mid) && Buffer(after) && m <= upto && AgreeOn(mid, after, from, m)
    requires WalkRecords(mid, from, Kinds(a)) == m && WalkRecords(after, m, Kinds(b)) == upto
    ensures WalkRecords(after, from, Kinds(a + b)) == upto
  {
    WalkRecordsFrame(mid, after, from, Kinds(a));
    WalkRecordsMore(after, from, Kinds(a), Kinds(b));
    KindsConcat(a, b);
  }

  /** The header field `at`, and nothing behind the header, changes. */
  method SetCount(packet: array<byte>, at: nat, v: nat)
    requires packet.Length == MAX + 1 && at + 1 < HEAD_LEN && v < 0x10000
    modifies packet
    ensures packet[..] == old(packet[..])[at := v / 0x100][at + 1 := v % 0x100]
    ensures U16At(packet[..], at) == v && AgreeOn(old(packet[..]), packet[..], HEAD_LEN, MAX + 1)
  {
    SetU16(packet, at, v);
  }

  /** The sections, each walked when it was complete, in the buffer as it is at the end. */
  lemma SectionsWalk(b1: seq<byte>, a1: seq<byte>, b2: seq<byte>, a2: seq<byte>, b3: seq<byte>, a3: seq<byte>,
                     end: seq<byte>, m1: nat, m2: nat, m3: nat, m4: nat, c1: nat, c2: nat, c3: nat,
                     p: OutPacket, env: Env)
    requires PacketOk(p) && EnvOk(env) && HEAD_LEN <= m1
    requires Delivered(b1, a1, m1, m2, c1, AllRecords(p.answers, env)) && AgreeOn(a1, b2, HEAD_LEN, MAX + 1)
    requires Delivered(b2, a2, m2, m3, c2, AllRecords(p.servers, env)) && AgreeOn(a2, b3, HEAD_LEN, MAX + 1)
    requires Delivered(b3, a3, m3, m4, c3, AllRecords(p.additional, env)) && AgreeOn(a3, end, HEAD_LEN, MAX + 1)
    ensures Buffer(end) && WalkRecords(end, m1, Kinds(PacketRecords(p, env))) == m4
    ensures c1 == |AllRecords(p.answers, env)| && c2 == |AllRecords(p.servers, env)|
    ensures c3 == |AllRecords(p.additional, env)|
  {
    hide AllRecords, SpelledAll, WalkQuestions, WalkRecords, Delivered, AnswersOk, EnvOk;
    var r1, r2, r3 := AllRecords(p.answers, env), AllRecords(p.servers, env), AllRecords(p.additional, env);
    SectionWalks(b1, a1, m1, m2, c1, p.answers, env);
    SectionWalks(b2, a2, m2, m3, c2, p.servers, env);
    SectionWalks(b3, a3, m3, m4, c3, p.additional, env);
    TwoWalks(a1, a2, m1, m2, m3, r1, r2);
    TwoWalks(a2, a3, m1, m3, m4, r1 + r2, r3);
    WalkRecordsFrame(a3, end, m1, Kinds(r1 + r2 + r3));
  }

  /** What a section holds is still there at the end. */
  lemma StagesKept(b1: seq<byte>, a1: seq<byte>, b2: seq<byte>, a2: seq<byte>, b3: seq<byte>, a3: seq<byte>,
                   end: seq<byte>, m1: nat, m2: nat, m3: nat, m4: nat, c1: nat, c2: nat, c3: nat,
                   p: OutPacket, env: Env)
    requires PacketOk(p) && EnvOk(env) && HEAD_LEN <= m1
    requires Delivered(b1, a1, m1, m2, c1, AllRecords(p.answers, env)) && AgreeOn(a1, b2, HEAD_LEN, MAX + 1)
    requires Delivered(b2, a2, m2, m3, c2, AllRecords(p.servers, env)) && AgreeOn(a2, b3, HEAD_LEN, MAX + 1)
    requires Delivered(b3, a3, m3, m4, c3, AllRecords(p.additional, env)) && AgreeOn(a3, end, HEAD_LEN, MAX + 1)
    ensures var t := Sections(Stage(b1, a1, m1, m2), Stage(b2, a2, m2, m3), Stage(b3, a3, m3, m4));
            SectionsIn(end, m1, m4, t, p, env)
  {
    hide AllRecords, SpelledAll, WalkRecords, AnswersOk, EnvOk, AgreeOn, AgreeBelow;
    SectionWalks(b1, a1, m1, m2, c1, p.answers, env);
    SectionWalks(b2, a2, m2, m3, c2, p.servers, env);
    SectionWalks(b3, a3, m3, m4, c3, p.additional, env);
    Carried(a1, b2, a2, m2, m2);
    Carried(a2, b3, a3, m3, m3);
    CarriedOn(a1, a2, b3, m2);
    CarriedOn(a2, a3, end, m3);
    CarriedBelow(a1, b3, a3, m2, m3);
    CarriedOn(a1, a3, end, m2);
    Less(a3, end, m4);
  }

  lemma Carried(a: seq<byte>, b: seq<byte>, c: seq<byte>, m: nat, n: nat)
    requires AgreeOn(a, b, HEAD_LEN, MAX + 1) && Buffer(a) && Buffer(c) && AgreeBelow(b, c, n) && m <= n <= MAX
    ensures AgreeOn(a, c, HEAD_LEN, m)
  {
  }

  lemma CarriedOn(a: seq<byte>, b: seq<byte>, c: seq<byte>, m: nat)
    requires AgreeOn(a, b, HEAD_LEN, m) && AgreeOn(b, c, HEAD_LEN, MAX + 1) && m <= MAX
    ensures AgreeOn(a, c, HEAD_LEN, m)
  {
  }

  lemma CarriedBelow(a: seq<byte>, b: seq<byte>, c: seq<byte>, m: nat, n: nat)
    requires AgreeOn(a, b, HEAD_LEN, m) && Buffer(a) && Buffer(c) && AgreeBelow(b, c, n) && m <= n
    ensures AgreeOn(a, c, HEAD_LEN, m)
  {
  }

  lemma Less(a: seq<byte>, b: seq<byte>, m: nat)
    requires AgreeOn(a, b, HEAD_LEN, MAX + 1) && m <= MAX
    ensures AgreeOn(a, b, HEAD_LEN, m)
  {
  }

  /** The three answer sections with their counts. */
  method PutSections(packet: array<byte>, index: nat, p: OutPacket, env: Env)
    returns (newIndex: nat, ghost whole: bool, ghost t: Sections)
    requires packet.Length == MAX + 1 && HEAD_LEN <= index <= MAX && PacketOk(p) && EnvOk(env)
    modifies packet
    ensures index <= newIndex <= MAX && AgreeBelow(old(packet[..]), packet[..], 6)
    ensures AgreeOn(old(packet[..]), packet[..], HEAD_LEN, index)
    ensures whole ==> && U16At(packet[..], 6) == |AllRecords(p.answers, env)|
                      && U16At(packet[..], 8) == |AllRecords(p.servers, env)|
                      && U16At(packet[..], 10) == |AllRecords(p.additional, env)|
                      && WalkRecords(packet[..], index, Kinds(PacketRecords(p, env))) == newIndex
                      && SectionsIn(packet[..], index, newIndex, t, p, env)
    ensures index + SectionsBound(p, env) < MAX && NoZeroAddress(env) && TargetsKnown(p, env) ==> whole
  {
    hide AllHaveTargets, NoZeroAddress, AllRecords, SpelledAll, BoundAll, AnswersOk, EnvOk, WalkRecords;
    hide U16At, Delivered, SectionsIn;
    ghost var b1 := packet[..];
    var count;
    ghost var part;
    newIndex, count, whole := PutAnswers(packet, index, p.answers, env);
    ghost var a1, m2, c1 := packet[..], newIndex, count;
    SetCount(packet, 6, count);
    ghost var b2 := packet[..];
    newIndex, count, part := PutAnswers(packet, newIndex, p.servers, env);
    ghost var a2, m3, c2 := packet[..], newIndex, count;
    whole := whole && part;
    SetCount(packet, 8, count);
    ghost var b3 := packet[..];
    newIndex, count, part := PutAnswers(packet, newIndex, p.additional, env);
    ghost var a3, c3 := packet[..], count;
    whole := whole && part;
    SetCount(packet, 10, count);
    t := Sections(Stage(b1, a1, index, m2), Stage(b2, a2, m2, m3), Stage(b3, a3, m3, newIndex));
    if whole {
      ghost var end := packet[..];
      SectionsWalk(b1, a1, b2, a2, b3, a3, end, index, m2, m3, newIndex, c1, c2, c3, p, env);
      StagesKept(b1, a1, b2, a2, b3, a3, end, index, m2, m3, newIndex, c1, c2, c3, p, env);
      FieldKept(b2, end, 6);
      FieldKept(b3, end, 8);
    }
  }

  /**
   `_mdns_dispatch_tx_packet`, up to the hand-over of the buffer.  The index never leaves 12..1460,
   and a packet whose uncompressed form fits is well framed.
   */
  method DispatchTxPacket(packet: array<byte>, p: OutPacket, env: Env)
    returns (index: nat, ghost whole: bool, ghost q: Stage, ghost t: Sections)
    requires packet.Length == MAX + 1 && PacketOk(p) && EnvOk(env)
    modifies packet
    ensures HEAD_LEN <= index <= MAX
    ensures whole ==> WellFramed(packet[..], index, p, env) && LaidOut(packet[..], index, q, t, p, env)
    ensures PacketBound(p, env) < MAX && NoZeroAddress(env) && TargetsKnown(p, env) ==> whole
  {
    hide AllRecords, BoundAll, QuestionsBound, AnswersOk, EnvOk, WalkQuestions, WalkRecords, U16At;
    hide AsksAll, SectionsIn, NoZeroAddress, TargetsKnown, PacketRecords, Kinds;
    SetCount(packet, 2, p.flags);
    ghost var h0 := packet[..];
    SetCount(packet, 0, p.id);
    ghost var h1 := packet[..];
    var count;
    index, count, whole := PutQuestions(packet, HEAD_LEN, p.questions);
    ghost var b0, m := packet[..], index;
    SetCount(packet, 4, count);
    ghost var b1 := packet[..];
    q := Stage(h1, b0, HEAD_LEN, m);
    ghost var part;
    index, part, t := PutSections(packet, index, p, env);
    whole := whole && part;
    if whole {
      ghost var end := packet[..];
      WalkQuestionsFrame(b0, end, HEAD_LEN, |p.questions|);
      FieldKept(h0, end, 2);
      FieldKept(h1, end, 0);
      FieldKept(b1, end, 4);
      CarriedTo(b0, b1, end, m);
    }
  }

  lemma CarriedTo(a: seq<byte>, b: seq<byte>, c: seq<byte>, m: nat)
    requires AgreeOn(a, b, HEAD_LEN, MAX + 1) && AgreeOn(b, c, HEAD_LEN, m) && m <= MAX
    ensures AgreeOn(a, c, HEAD_LEN, m)
  {
  }
}
