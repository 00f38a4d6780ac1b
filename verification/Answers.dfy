/**
 Answer construction: which records the reply to a parsed query holds (section 7.1 of RFC 6762 on
 known answers, section 12.1 of RFC 6763 on additional records).
 */
module Answers {
  import opened Bytes
  import opened Txt
  import opened Wire

  const SERVICE_PORT: nat := 5353

  /** `mdns_service_t` as a registered object: two services with the same `id` are the same. */
  datatype Service = Service(id: nat, instance: Option<text>, service: text, proto: text,
                             hostname: Option<text>, subtypes: seq<text>)

  /** A host item: none, the responder's own, or the delegated one of that name. */
  datatype HostRef = NoHost | SelfHost | Delegated(name: text)

  /** `_mdns_server`: its names are set while it answers. */
  datatype Server = Server(hostname: text, instance: Option<text>, hosts: seq<text>, services: seq<Service>)

  /** `mdns_out_answer_t`; its service is named by identity. */
  datatype Answer = Answer(rtype: nat, service: Option<nat>, host: HostRef, flush: bool, bye: bool)

  /** `mdns_parsed_question_t` and `mdns_parsed_record_t` */
  datatype Question = Question(qtype: nat, sub: bool, unicast: bool, host: Option<text>,
                               service: Option<text>, proto: Option<text>)

  datatype Known = Known(host: Option<text>, service: Option<text>, proto: Option<text>, ttl: nat)

  datatype Query = Query(questions: seq<Question>, records: seq<Known>, srcPort: nat, probe: bool)

  /** The lists of the packet under construction; `echoed` are the questions repeated in it. */
  datatype Lists = Lists(echoed: seq<Question>, answers: seq<Answer>, additional: seq<Answer>)

  datatype Reply = NoReply | Reply(lists: Lists, toSource: bool, shared: bool)

  // ---------------------------------------------------------------- matching

  predicate Empty(o: Option<text>) {
    o.None? || o.value == []
  }

  function DefaultInstance(server: Server): text {
    if Empty(server.instance) then server.hostname else server.instance.value
  }

  /** `_mdns_get_service_instance_name` */
  function InstanceName(s: Service, server: Server): text {
    if Empty(s.instance) then DefaultInstance(server) else s.instance.value
  }

  /** `_mdns_service_match` without a host name; a service without host never matches. */
  predicate Match(s: Service, service: Option<text>, proto: Option<text>) {
    service.Some? && proto.Some? && s.hostname.Some?
    && CaseEq(s.service, service.value) && CaseEq(s.proto, proto.value)
  }

  /** `_mdns_service_match_instance` without a host name; absent names stand for the default one. */
  predicate MatchInstance(s: Service, instance: Option<text>, service: Option<text>, proto: Option<text>,
                          server: Server)
  {
    service.Some? && proto.Some? && CaseEq(s.service, service.value)
    && CaseEq(if s.instance.Some? then s.instance.value else DefaultInstance(server),
              if instance.Some? then instance.value else DefaultInstance(server))
    && CaseEq(s.proto, proto.value)
  }

  /** `_mdns_get_service_item_instance`: the first service that matches, from index `i` on. */
  function FindService(q: Question, server: Server, i: nat): (r: int)
    requires i <= |server.services|
    ensures r == -1 || (i <= r < |server.services| && Meant(server.services[r], q, server))
    ensures forall k :: i <= k < (if r == -1 then |server.services| else r) ==> !Meant(server.services[k], q, server)
    decreases |server.services| - i
  {
    if i == |server.services| then -1
    else if Meant(server.services[i], q, server) then i
    else FindService(q, server, i + 1)
  }

  predicate Meant(s: Service, q: Question, server: Server) {
    if q.host.Some? then MatchInstance(s, q.host, q.service, q.proto, server) else Match(s, q.service, q.proto)
  }

  /** `_mdns_service_match_ptr_question` */
  predicate MatchPtr(s: Service, q: Question, server: Server) {
    Match(s, q.service, q.proto) &&
    if q.sub then q.host.Some? && exists i :: 0 <= i < |s.subtypes| && CaseEq(s.subtypes[i], q.host.value)
    else q.host.Some? ==> CaseEq(InstanceName(s, server), q.host.value)
  }

  /** The test that spares a service: a record the querier has for more than half of its lifetime. */
  predicate Suppresses(r: Known, s: Service, server: Server) {
    r.ttl > LONG_TTL / 2 &&
    if s.instance.Some? && r.host.Some? then MatchInstance(s, r.host, r.service, r.proto, server)
    else s.instance.None? && r.host.None? && Match(s, r.service, r.proto)
  }

  predicate KnownAnswer(s: Service, records: seq<Known>, server: Server) {
    exists i :: 0 <= i < |records| && Suppresses(records[i], s, server)
  }

  /** `mdns_get_host_item` */
  function HostItem(hostname: Option<text>, server: Server): HostRef {
    if hostname.None? || CaseEq(hostname.value, server.hostname) then SelfHost
    else FindHost(server.hosts, hostname.value)
  }

  function FindHost(hosts: seq<text>, name: text): HostRef {
    if hosts == [] then NoHost
    else if CaseEq(hosts[0], name) then Delegated(hosts[0])
    else FindHost(hosts[1..], name)
  }

  // ---------------------------------------------------------------- lists of answers

  /** An answer for that type, service and host is in the list. */
  predicate Has(l: seq<Answer>, rtype: nat, service: Option<nat>, host: HostRef) {
    exists i :: 0 <= i < |l| && l[i].rtype == rtype && l[i].service == service && l[i].host == host
  }

  /** `_mdns_alloc_answer` */
  function Alloc(l: seq<Answer>, rtype: nat, service: Option<nat>, host: HostRef, flush: bool): (r: seq<Answer>)
    ensures l <= r
  {
    if Has(l, rtype, service, host) then l else l + [Answer(rtype, service, host, flush, false)]
  }

  /** No two answers agree in type, service and host. */
  predicate NoTwice(l: seq<Answer>) {
    forall i, j :: 0 <= i < j < |l| ==>
      !(l[i].rtype == l[j].rtype && l[i].service == l[j].service && l[i].host == l[j].host)
  }

  lemma AllocHas(l: seq<Answer>, rtype: nat, service: Option<nat>, host: HostRef, flush: bool,
                 t: nat, s: Option<nat>, h: HostRef)
    ensures Has(Alloc(l, rtype, service, host, flush), t, s, h) ==
            (Has(l, t, s, h) || (t == rtype && s == service && h == host))
  {
    var r := Alloc(l, rtype, service, host, flush);
    if !Has(l, rtype, service, host) {
      assert r[|l|] == Answer(rtype, service, host, flush, false);
      assert forall i :: 0 <= i < |l| ==> r[i] == l[i];
    }
  }

  lemma AllocNoTwice(l: seq<Answer>, rtype: nat, service: Option<nat>, host: HostRef, flush: bool)
    requires NoTwice(l)
    ensures NoTwice(Alloc(l, rtype, service, host, flush))
  {
  }

  // ---------------------------------------------------------------- one question

  /** The part of a service's answer that says where it is: own hosts of unshared answers come first. */
  function AllocAddresses(l: Lists, s: Service, host: HostRef, second: bool, flush: bool): Lists {
    if second then
      l.(additional := Alloc(Alloc(l.additional, TYPE_A, Some(s.id), host, flush), TYPE_AAAA, Some(s.id), host, flush))
    else
      l.(answers := Alloc(Alloc(l.answers, TYPE_A, Some(s.id), host, flush), TYPE_AAAA, Some(s.id), host, flush))
  }

  /** `_mdns_create_answer_from_service` */
  function FromService(l: Lists, s: Service, q: Question, shared: bool, flush: bool, server: Server): Lists {
    var host := HostItem(s.hostname, server);
    if q.qtype == TYPE_PTR || q.qtype == TYPE_ANY then
      var l := l.(answers := Alloc(l.answers, TYPE_PTR, Some(s.id), NoHost, false));
      var srv := Alloc(l.additional, TYPE_SRV, Some(s.id), NoHost, flush);
      var l := l.(additional := Alloc(srv, TYPE_TXT, Some(s.id), NoHost, flush));
      AllocAddresses(l, s, host, shared || !host.SelfHost?, flush)
    else if q.qtype == TYPE_SRV then
      AllocAddresses(l.(answers := Alloc(l.answers, TYPE_SRV, Some(s.id), NoHost, flush)), s, host, true, flush)
    else if q.qtype == TYPE_TXT then l.(answers := Alloc(l.answers, TYPE_TXT, Some(s.id), NoHost, flush))
    else if q.qtype == TYPE_SDPTR then l.(answers := Alloc(l.answers, TYPE_SDPTR, Some(s.id), NoHost, false))
    else l
  }

  function AllocHost(l: seq<Answer>, host: HostRef, flush: bool): seq<Answer> {
    Alloc(Alloc(l, TYPE_A, None, host, flush), TYPE_AAAA, None, host, flush)
  }

  /** The list walk of `_mdns_append_host_list` steps on before it appends, so it misses the first host. */
  function AllocHosts(l: seq<Answer>, hosts: seq<text>, i: nat, flush: bool): seq<Answer>
    requires i <= |hosts|
    decreases |hosts| - i
  {
    if i == |hosts| then l
    else
      var host := if i + 1 < |hosts| then Delegated(hosts[i + 1]) else NoHost;
      AllocHosts(AllocHost(l, host, flush), hosts, i + 1, flush)
  }

  /** `_mdns_append_host_list` */
  function AnyHosts(l: seq<Answer>, server: Server, flush: bool): seq<Answer> {
    var own := if server.hostname == [] then l else AllocHost(l, HostItem(Some(server.hostname), server), flush);
    AllocHosts(own, server.hosts, 0, flush)
  }

  predicate Shared(q: Question, query: Query) {
    q.qtype == TYPE_PTR || q.qtype == TYPE_SDPTR || !query.probe
  }

  predicate Flush(query: Query) {
    query.srcPort == SERVICE_PORT
  }

  /** The first `n` services asked one question: the lists and the number of records counted. */
  function AskServices(l: Lists, q: Question, query: Query, server: Server, n: nat): (r: (Lists, nat))
    requires n <= |server.services|
    decreases n
  {
    if n == 0 then (l, 0)
    else
      var (m, c) := AskServices(l, q, query, server, n - 1);
      var s := server.services[n - 1];
      if MatchPtr(s, q, server) && !KnownAnswer(s, query.records, server) then
        (FromService(m, s, q, Shared(q, query), Flush(query), server), c + 1)
      else (m, c)
  }

  /** A question for a service record nobody here serves is passed over, echo and all. */
  predicate PassedOver(q: Question, server: Server) {
    (q.qtype == TYPE_SRV || q.qtype == TYPE_TXT) && FindService(q, server, 0) == -1
  }

  function Ask(l: Lists, q: Question, query: Query, server: Server): (Lists, nat) {
    var flush := Flush(query);
    if q.qtype == TYPE_SRV || q.qtype == TYPE_TXT then
      var i := FindService(q, server, 0);
      if i == -1 then (l, 0) else (FromService(l, server.services[i], q, Shared(q, query), flush, server), 1)
    else if q.service.Some? && q.proto.Some? then AskServices(l, q, query, server, |server.services|)
    else if q.qtype == TYPE_A || q.qtype == TYPE_AAAA then
      (l.(answers := AllocHost(l.answers, HostItem(q.host, server), flush)), 1)
    else if q.qtype == TYPE_ANY then
      (l.(answers := AnyHosts(l.answers, server, flush)), 1)
    else (l.(answers := Alloc(l.answers, q.qtype, None, NoHost, flush)), 1)
  }

  /** One-shot queries are repeated in the reply. */
  function Echo(l: Lists, q: Question, query: Query): Lists {
    if !Flush(query) && q.qtype in {TYPE_ANY, TYPE_A, TYPE_AAAA} then l.(echoed := l.echoed + [q]) else l
  }

  datatype Progress = Progress(lists: Lists, count: nat, unicast: bool, shared: bool)

  /** The loop over the questions, after `n` of them. */
  function After(query: Query, server: Server, n: nat): Progress
    requires n <= |query.questions|
    decreases n
  {
    if n == 0 then Progress(Lists([], [], []), 0, false, false)
    else
      var p := After(query, server, n - 1);
      var q := query.questions[n - 1];
      var p := p.(shared := Shared(q, query));
      if PassedOver(q, server) then p
      else
        var (l, c) := Ask(p.lists, q, query, server);
        Progress(Echo(l, q, query), p.count + c, p.unicast || q.unicast, p.shared)
  }

  /** `_mdns_create_answer_from_parsed_packet` */
  function ReplyTo(query: Query, server: Server): Reply {
    var p := After(query, server, |query.questions|);
    if query.questions == [] || p.count == 0 then NoReply
    else Reply(p.lists, p.unicast || !Flush(query), p.shared)
  }

  // ---------------------------------------------------------------- exactness

  /** A service of that identity is among the first `n`; the question and the known answers leave it to be sent. */
  predicate Called(q: Question, id: nat, query: Query, server: Server, n: nat)
    requires n <= |server.services|
  {
    exists k :: 0 <= k < n && server.services[k].id == id
      && MatchPtr(server.services[k], q, server) && !KnownAnswer(server.services[k], query.records, server)
  }

  /** The question asks for a record of type `t` of service `id`, and it is not known already. */
  predicate Wants(q: Question, t: nat, id: nat, query: Query, server: Server) {
    if t == TYPE_SRV || t == TYPE_TXT then
      q.qtype == t && FindService(q, server, 0) >= 0 && server.services[FindService(q, server, 0)].id == id
    else
      (q.qtype == t || (t == TYPE_PTR && q.qtype == TYPE_ANY))
      && q.service.Some? && q.proto.Some? && Called(q, id, query, server, |server.services|)
  }

  /** The records that make up a service's own answer. */
  predicate OwnType(t: nat) {
    t in {TYPE_PTR, TYPE_SRV, TYPE_TXT, TYPE_SDPTR}
  }

  /** What must accompany a PTR record of `s`. */
  predicate Accompanied(l: Lists, s: Service, server: Server) {
    var host := HostItem(s.hostname, server);
    && Has(l.additional, TYPE_SRV, Some(s.id), NoHost) && Has(l.additional, TYPE_TXT, Some(s.id), NoHost)
    && (Has(l.answers, TYPE_A, Some(s.id), host) || Has(l.additional, TYPE_A, Some(s.id), host))
    && (Has(l.answers, TYPE_AAAA, Some(s.id), host) || Has(l.additional, TYPE_AAAA, Some(s.id), host))
  }

  /** Registered services are distinct objects. */
  predicate Distinct(server: Server) {
    forall i, j :: 0 <= i < j < |server.services| ==> server.services[i].id != server.services[j].id
  }

  predicate Sound(l: Lists, server: Server) {
    && NoTwice(l.answers) && NoTwice(l.additional)
    && forall k | 0 <= k < |server.services| && Has(l.answers, TYPE_PTR, Some(server.services[k].id), NoHost) ::
         Accompanied(l, server.services[k], server)
  }

  lemma HasMono(l: seq<Answer>, m: seq<Answer>, t: nat, s: Option<nat>, h: HostRef)
    requires l <= m && Has(l, t, s, h)
    ensures Has(m, t, s, h)
  {
    var i :| 0 <= i < |l| && l[i].rtype == t && l[i].service == s && l[i].host == h;
    assert m[i] == l[i];
  }

  lemma AccompaniedMono(l: Lists, m: Lists, s: Service, server: Server)
    requires Accompanied(l, s, server) && l.answers <= m.answers && l.additional <= m.additional
    ensures Accompanied(m, s, server)
  {
    var host := HostItem(s.hostname, server);
    HasMono(l.additional, m.additional, TYPE_SRV, Some(s.id), NoHost);
    HasMono(l.additional, m.additional, TYPE_TXT, Some(s.id), NoHost);
    if Has(l.answers, TYPE_A, Some(s.id), host) { HasMono(l.answers, m.answers, TYPE_A, Some(s.id), host); }
    else { HasMono(l.additional, m.additional, TYPE_A, Some(s.id), host); }
    if Has(l.answers, TYPE_AAAA, Some(s.id), host) { HasMono(l.answers, m.answers, TYPE_AAAA, Some(s.id), host); }
    else { HasMono(l.additional, m.additional, TYPE_AAAA, Some(s.id), host); }
  }

  /** Addresses are no records of a service's own. */
  lemma AddressesHas(l: Lists, s: Service, host: HostRef, second: bool, flush: bool)
    ensures var m := AllocAddresses(l, s, host, second, flush);
            && l.answers <= m.answers && l.additional <= m.additional && m.echoed == l.echoed
            && (NoTwice(l.answers) && NoTwice(l.additional) ==> NoTwice(m.answers) && NoTwice(m.additional))
            && (forall t, x: Option<nat>, h :: t != TYPE_A && t != TYPE_AAAA ==>
                  (Has(m.answers, t, x, h) <==> Has(l.answers, t, x, h)) &&
                  (Has(m.additional, t, x, h) <==> Has(l.additional, t, x, h)))
            && (Has(m.answers, TYPE_A, Some(s.id), host) || Has(m.additional, TYPE_A, Some(s.id), host))
            && (Has(m.answers, TYPE_AAAA, Some(s.id), host) || Has(m.additional, TYPE_AAAA, Some(s.id), host))
  {
    var list := if second then l.additional else l.answers;
    var one := Alloc(list, TYPE_A, Some(s.id), host, flush);
    var two := Alloc(one, TYPE_AAAA, Some(s.id), host, flush);
    forall t, x: Option<nat>, h
      ensures Has(two, t, x, h) ==
        (Has(list, t, x, h) || ((t == TYPE_A || t == TYPE_AAAA) && x == Some(s.id) && h == host))
    {
      AllocHas(list, TYPE_A, Some(s.id), host, flush, t, x, h);
      AllocHas(one, TYPE_AAAA, Some(s.id), host, flush, t, x, h);
    }
    if NoTwice(list) {
      AllocNoTwice(list, TYPE_A, Some(s.id), host, flush);
      AllocNoTwice(one, TYPE_AAAA, Some(s.id), host, flush);
    }
  }

  /** A question of that type asks for records of type `t`. */
  predicate Reaches(qtype: nat, t: nat) {
    qtype == t || (t == TYPE_PTR && qtype == TYPE_ANY)
  }

  /** The own records in the answers after one step: those before it and, if `more`, the one of `s`. */
  ghost predicate Adds(l: Lists, m: Lists, t: nat, s: Service, more: bool) {
    forall x :: Has(m.answers, t, Some(x), NoHost) == (Has(l.answers, t, Some(x), NoHost) || (more && x == s.id))
  }

  lemma FromServiceGrows(l: Lists, s: Service, q: Question, shared: bool, flush: bool, server: Server)
    ensures var m := FromService(l, s, q, shared, flush, server); l.answers <= m.answers && l.additional <= m.additional
  {
  }

  lemma FromServiceAdds(l: Lists, s: Service, q: Question, shared: bool, flush: bool, server: Server, t: nat)
    requires OwnType(t)
    ensures Adds(l, FromService(l, s, q, shared, flush, server), t, s, Reaches(q.qtype, t))
  {
    var host := HostItem(s.hostname, server);
    var m := FromService(l, s, q, shared, flush, server);
    forall x
      ensures Has(m.answers, t, Some(x), NoHost) ==
              (Has(l.answers, t, Some(x), NoHost) || (Reaches(q.qtype, t) && x == s.id))
    {
      var first := if q.qtype == TYPE_ANY then TYPE_PTR else q.qtype;
      var f := flush && first != TYPE_PTR && first != TYPE_SDPTR;
      AllocHas(l.answers, first, Some(s.id), NoHost, f, t, Some(x), NoHost);
      var one := Alloc(l.answers, first, Some(s.id), NoHost, f);
      AllocHas(one, TYPE_A, Some(s.id), host, flush, t, Some(x), NoHost);
      AllocHas(Alloc(one, TYPE_A, Some(s.id), host, flush), TYPE_AAAA, Some(s.id), host, flush, t, Some(x), NoHost);
    }
  }

  lemma FromServiceSound(l: Lists, j: nat, q: Question, shared: bool, flush: bool, server: Server)
    requires Sound(l, server) && Distinct(server) && j < |server.services|
    ensures Sound(FromService(l, server.services[j], q, shared, flush, server), server)
  {
    var s := server.services[j];
    var host := HostItem(s.hostname, server);
    var m := FromService(l, s, q, shared, flush, server);
    FromServiceAdds(l, s, q, shared, flush, server, TYPE_PTR);
    FromServiceNoTwice(l, s, q, shared, flush, server);
    FromServiceGrows(l, s, q, shared, flush, server);
    forall k | 0 <= k < |server.services| && Has(m.answers, TYPE_PTR, Some(server.services[k].id), NoHost)
      ensures Accompanied(m, server.services[k], server)
    {
      hide FromService, Has;
      var x := server.services[k];
      if Has(l.answers, TYPE_PTR, Some(x.id), NoHost) { AccompaniedMono(l, m, x, server); }
      else { FromServiceAccompanies(l, s, q, shared, flush, server); }
    }
  }

  lemma FromServiceNoTwice(l: Lists, s: Service, q: Question, shared: bool, flush: bool, server: Server)
    requires NoTwice(l.answers) && NoTwice(l.additional)
    ensures var m := FromService(l, s, q, shared, flush, server); NoTwice(m.answers) && NoTwice(m.additional)
  {
    hide NoTwice, Alloc, Has;
    var host := HostItem(s.hostname, server);
    var first := if q.qtype == TYPE_ANY then TYPE_PTR else q.qtype;
    var f := flush && first != TYPE_PTR && first != TYPE_SDPTR;
    AllocNoTwice(l.answers, first, Some(s.id), NoHost, f);
    AllocNoTwice(l.additional, TYPE_SRV, Some(s.id), NoHost, flush);
    var srv := Alloc(l.additional, TYPE_SRV, Some(s.id), NoHost, flush);
    AllocNoTwice(srv, TYPE_TXT, Some(s.id), NoHost, flush);
    var n := l.(answers := Alloc(l.answers, first, Some(s.id), NoHost, f));
    AddressesNoTwice(n, s, host, true, flush);
    var k := n.(additional := Alloc(srv, TYPE_TXT, Some(s.id), NoHost, flush));
    AddressesNoTwice(k, s, host, shared || !host.SelfHost?, flush);
  }

  lemma AddressesNoTwice(l: Lists, s: Service, host: HostRef, second: bool, flush: bool)
    requires NoTwice(l.answers) && NoTwice(l.additional)
    ensures var m := AllocAddresses(l, s, host, second, flush); NoTwice(m.answers) && NoTwice(m.additional)
  {
    AddressesHas(l, s, host, second, flush);
  }

  lemma FromServiceAccompanies(l: Lists, s: Service, q: Question, shared: bool, flush: bool, server: Server)
    requires q.qtype == TYPE_PTR || q.qtype == TYPE_ANY
    ensures Accompanied(FromService(l, s, q, shared, flush, server), s, server)
  {
    var host := HostItem(s.hostname, server);
    var srv := Alloc(l.additional, TYPE_SRV, Some(s.id), NoHost, flush);
    AllocHas(l.additional, TYPE_SRV, Some(s.id), NoHost, flush, TYPE_SRV, Some(s.id), NoHost);
    var txt := Alloc(srv, TYPE_TXT, Some(s.id), NoHost, flush);
    AllocHas(srv, TYPE_TXT, Some(s.id), NoHost, flush, TYPE_TXT, Some(s.id), NoHost);
    HasMono(srv, txt, TYPE_SRV, Some(s.id), NoHost);
    var k := l.(answers := Alloc(l.answers, TYPE_PTR, Some(s.id), NoHost, false), additional := txt);
    AddressesHas(k, s, host, shared || !host.SelfHost?, flush);
  }

  lemma {:induction false} AskServicesExact(l: Lists, q: Question, query: Query, server: Server, n: nat, t: nat,
      id: nat)
    requires n <= |server.services| && OwnType(t)
    ensures Has(AskServices(l, q, query, server, n).0.answers, t, Some(id), NoHost) ==
            (Has(l.answers, t, Some(id), NoHost) || (Reaches(q.qtype, t) && Called(q, id, query, server, n)))
  {
    hide MatchPtr, KnownAnswer, Has, FromService;
    if n > 0 {
      AskServicesExact(l, q, query, server, n - 1, t, id);
      var m := AskServices(l, q, query, server, n - 1).0;
      FromServiceAdds(m, server.services[n - 1], q, Shared(q, query), Flush(query), server, t);
      var s := server.services[n - 1];
      assert Called(q, id, query, server, n) ==
        (Called(q, id, query, server, n - 1)
         || (s.id == id && MatchPtr(s, q, server) && !KnownAnswer(s, query.records, server)));
    }
  }

  lemma {:induction false} AskServicesSound(l: Lists, q: Question, query: Query, server: Server, n: nat)
    requires n <= |server.services| && Sound(l, server) && Distinct(server)
    ensures Sound(AskServices(l, q, query, server, n).0, server)
  {
    hide MatchPtr, KnownAnswer, FromService, Sound;
    if n > 0 {
      AskServicesSound(l, q, query, server, n - 1);
      FromServiceSound(AskServices(l, q, query, server, n - 1).0, n - 1, q,
                       Shared(q, query), Flush(query), server);
    }
  }

  /** Records that belong to no service change nothing for those that do. */
  ghost predicate Apart(l: Lists, m: Lists) {
    && l.answers <= m.answers && m.additional == l.additional
    && (NoTwice(l.answers) ==> NoTwice(m.answers))
    && (forall t, id: nat, h :: Has(m.answers, t, Some(id), h) == Has(l.answers, t, Some(id), h))
  }

  lemma ApartSound(l: Lists, m: Lists, server: Server)
    requires Apart(l, m) && Sound(l, server)
    ensures Sound(m, server)
  {
    forall k | 0 <= k < |server.services| && Has(m.answers, TYPE_PTR, Some(server.services[k].id), NoHost)
      ensures Accompanied(m, server.services[k], server)
    {
      AccompaniedMono(l, m, server.services[k], server);
    }
  }

  lemma AllocApart(l: Lists, rtype: nat, host: HostRef, flush: bool)
    ensures Apart(l, l.(answers := Alloc(l.answers, rtype, None, host, flush)))
  {
    forall t, id: nat, h
      ensures Has(Alloc(l.answers, rtype, None, host, flush), t, Some(id), h) == Has(l.answers, t, Some(id), h)
    {
      AllocHas(l.answers, rtype, None, host, flush, t, Some(id), h);
    }
  }

  lemma AllocHostApart(l: Lists, host: HostRef, flush: bool)
    ensures Apart(l, l.(answers := AllocHost(l.answers, host, flush)))
  {
    hide NoTwice, Has, Alloc;
    AllocApart(l, TYPE_A, host, flush);
    AllocApart(l.(answers := Alloc(l.answers, TYPE_A, None, host, flush)), TYPE_AAAA, host, flush);
  }

  lemma {:induction false} AllocHostsApart(l: Lists, hosts: seq<text>, i: nat, flush: bool)
    requires i <= |hosts|
    ensures Apart(l, l.(answers := AllocHosts(l.answers, hosts, i, flush)))
    decreases |hosts| - i
  {
    hide NoTwice, Has, AllocHost;
    if i < |hosts| {
      var host := if i + 1 < |hosts| then Delegated(hosts[i + 1]) else NoHost;
      AllocHostApart(l, host, flush);
      AllocHostsApart(l.(answers := AllocHost(l.answers, host, flush)), hosts, i + 1, flush);
    }
  }

  predicate IsRecordType(t: nat) {
    t == TYPE_SRV || t == TYPE_TXT
  }

  lemma AskExact(l: Lists, q: Question, query: Query, server: Server, t: nat, id: nat)
    requires OwnType(t)
    ensures Has(Ask(l, q, query, server).0.answers, t, Some(id), NoHost) ==
            (Has(l.answers, t, Some(id), NoHost) || Wants(q, t, id, query, server))
  {
    hide MatchPtr, KnownAnswer, Has, FromService, AskServices, AllocHost, AllocHosts, Alloc, Meant, HostItem;
    var flush := Flush(query);
    if IsRecordType(q.qtype) {
      var i := FindService(q, server, 0);
      if i >= 0 { FromServiceAdds(l, server.services[i], q, Shared(q, query), flush, server, t); }
    } else if q.service.Some? && q.proto.Some? {
      AskServicesExact(l, q, query, server, |server.services|, t, id);
    } else if q.qtype == TYPE_A || q.qtype == TYPE_AAAA {
      AllocHostApart(l, HostItem(q.host, server), flush);
    } else if q.qtype == TYPE_ANY {
      AnyApart(l, server, flush);
    } else {
      AllocApart(l, q.qtype, NoHost, flush);
    }
  }

  lemma AnyApart(l: Lists, server: Server, flush: bool)
    ensures Apart(l, l.(answers := AnyHosts(l.answers, server, flush)))
  {
    hide NoTwice, Has, AllocHost, AllocHosts;
    AllocHostApart(l, HostItem(Some(server.hostname), server), flush);
    var own := if server.hostname == [] then l.answers
               else AllocHost(l.answers, HostItem(Some(server.hostname), server), flush);
    AllocHostsApart(l.(answers := own), server.hosts, 0, flush);
  }

  lemma AskSound(l: Lists, q: Question, query: Query, server: Server)
    requires Sound(l, server) && Distinct(server)
    ensures Sound(Ask(l, q, query, server).0, server)
  {
    hide MatchPtr, KnownAnswer, Has, FromService, AskServices, AllocHost, AllocHosts, Alloc, Meant, HostItem;
    hide Sound, Apart;
    var flush := Flush(query);
    var m := Ask(l, q, query, server).0;
    if IsRecordType(q.qtype) {
      var i := FindService(q, server, 0);
      if i >= 0 { FromServiceSound(l, i, q, Shared(q, query), flush, server); }
    } else if q.service.Some? && q.proto.Some? {
      AskServicesSound(l, q, query, server, |server.services|);
    } else if q.qtype == TYPE_A || q.qtype == TYPE_AAAA {
      AllocHostApart(l, HostItem(q.host, server), flush);
      ApartSound(l, m, server);
    } else if q.qtype == TYPE_ANY {
      AnyApart(l, server, flush);
      ApartSound(l, m, server);
    } else {
      AllocApart(l, q.qtype, NoHost, flush);
      ApartSound(l, m, server);
    }
  }

  /** One of the first `n` questions wants that record. */
  ghost predicate Wanted(query: Query, t: nat, id: nat, server: Server, n: nat)
    requires n <= |query.questions|
  {
    exists i :: 0 <= i < n && Wants(query.questions[i], t, id, query, server)
  }

  lemma WantedOneMore(query: Query, t: nat, id: nat, server: Server, n: nat)
    requires 0 < n <= |query.questions|
    ensures Wanted(query, t, id, server, n) ==
            (Wanted(query, t, id, server, n - 1) || Wants(query.questions[n - 1], t, id, query, server))
  {
    hide Wants;
    if Wanted(query, t, id, server, n - 1) {
      var i :| 0 <= i < n - 1 && Wants(query.questions[i], t, id, query, server);
      assert Wanted(query, t, id, server, n);
    }
    if Wants(query.questions[n - 1], t, id, query, server) { assert Wanted(query, t, id, server, n); }
  }

  lemma {:induction false} AfterExact(query: Query, server: Server, n: nat, t: nat, id: nat)
    requires n <= |query.questions| && OwnType(t)
    ensures Has(After(query, server, n).lists.answers, t, Some(id), NoHost) == Wanted(query, t, id, server, n)
  {
    if n > 0 {
      hide Has, Ask, Wanted, MatchPtr, KnownAnswer;
      AfterExact(query, server, n - 1, t, id);
      var q := query.questions[n - 1];
      AskExact(After(query, server, n - 1).lists, q, query, server, t, id);
      WantedOneMore(query, t, id, server, n);
      assert PassedOver(q, server) ==> !Wants(q, t, id, query, server);
    }
  }

  lemma {:induction false} AfterSound(query: Query, server: Server, n: nat)
    requires n <= |query.questions| && Distinct(server)
    ensures Sound(After(query, server, n).lists, server)
  {
    if n > 0 {
      hide Ask, PassedOver, Has;
      AfterSound(query, server, n - 1);
      AskSound(After(query, server, n - 1).lists, query.questions[n - 1], query, server);
    }
  }

  lemma {:induction false} AskServicesCounts(l: Lists, q: Question, query: Query, server: Server, n: nat)
    requires n <= |server.services|
    ensures AskServices(l, q, query, server, n).1 == 0 ==> AskServices(l, q, query, server, n).0 == l
  {
    hide MatchPtr, KnownAnswer, FromService;
    if n > 0 { AskServicesCounts(l, q, query, server, n - 1); }
  }

  lemma {:induction false} NothingCounted(query: Query, server: Server, n: nat)
    requires n <= |query.questions| && After(query, server, n).count == 0
    ensures After(query, server, n).lists.answers == []
  {
    if n > 0 {
      hide PassedOver, AskServices, FromService, AllocHost, AllocHosts, Alloc;
      NothingCounted(query, server, n - 1);
      AskServicesCounts(After(query, server, n - 1).lists, query.questions[n - 1], query, server, |server.services|);
    }
  }

  /**
   * A record of a service's own is in the reply exactly when some question wants it; no answer is
   * there twice, and every PTR record is sent with the SRV, TXT and address records of its service.
   */
  lemma ReplyIsExact(query: Query, server: Server)
    requires Distinct(server)
    ensures var reply := ReplyTo(query, server);
            && (forall t, id: nat :: OwnType(t) ==>
                  (reply.Reply? && Has(reply.lists.answers, t, Some(id), NoHost))
                    == Wanted(query, t, id, server, |query.questions|))
            && (reply.Reply? ==> Sound(reply.lists, server))
  {
    var n := |query.questions|;
    forall t, id: nat | OwnType(t)
      ensures Has(After(query, server, n).lists.answers, t, Some(id), NoHost) == Wanted(query, t, id, server, n)
    {
      AfterExact(query, server, n, t, id);
    }
    AfterSound(query, server, n);
    if After(query, server, n).count == 0 { NothingCounted(query, server, n); }
  }

  // ---------------------------------------------------------------- the packet under construction

  class OutPacket {
    var echoed: seq<Question>
    var answers: seq<Answer>
    var additional: seq<Answer>

    constructor ()
      ensures Contents() == Lists([], [], [])
    {
      echoed, answers, additional := [], [], [];
    }

    function Contents(): Lists
      reads this
    {
      Lists(echoed, answers, additional)
    }

    method AddAnswer(rtype: nat, service: Option<nat>, host: HostRef, flush: bool)
      modifies this`answers
      ensures answers == Alloc(old(answers), rtype, service, host, flush)
    {
      answers := AllocAnswer(answers, rtype, service, host, flush);
    }

    method AddAdditional(rtype: nat, service: Option<nat>, host: HostRef, flush: bool)
      modifies this`additional
      ensures additional == Alloc(old(additional), rtype, service, host, flush)
    {
      additional := AllocAnswer(additional, rtype, service, host, flush);
    }

    method AddFromService(s: Service, q: Question, shared: bool, flush: bool, server: Server)
      modifies this
      ensures Contents() == FromService(old(Contents()), s, q, shared, flush, server)
    {
      hide Alloc, HostItem;
      var host := HostItem(s.hostname, server);
      var delegated := !host.SelfHost?;
      if q.qtype == TYPE_PTR || q.qtype == TYPE_ANY {
        AddAnswer(TYPE_PTR, Some(s.id), NoHost, false);
        AddAdditional(TYPE_SRV, Some(s.id), NoHost, flush);
        AddAdditional(TYPE_TXT, Some(s.id), NoHost, flush);
        if shared || delegated {
          AddAdditional(TYPE_A, Some(s.id), host, flush);
          AddAdditional(TYPE_AAAA, Some(s.id), host, flush);
        } else {
          AddAnswer(TYPE_A, Some(s.id), host, flush);
          AddAnswer(TYPE_AAAA, Some(s.id), host, flush);
        }
      } else if q.qtype == TYPE_SRV {
        AddAnswer(TYPE_SRV, Some(s.id), NoHost, flush);
        AddAdditional(TYPE_A, Some(s.id), host, flush);
        AddAdditional(TYPE_AAAA, Some(s.id), host, flush);
      } else if q.qtype == TYPE_TXT {
        AddAnswer(TYPE_TXT, Some(s.id), NoHost, flush);
      } else if q.qtype == TYPE_SDPTR {
        AddAnswer(TYPE_SDPTR, Some(s.id), NoHost, false);
      }
    }

    method AddHost(host: HostRef, flush: bool)
      modifies this`answers
      ensures answers == AllocHost(old(answers), host, flush)
    {
      AddAnswer(TYPE_A, None, host, flush);
      AddAnswer(TYPE_AAAA, None, host, flush);
    }

    method AddHostList(server: Server, flush: bool)
      modifies this`answers
      ensures answers == AnyHosts(old(answers), server, flush)
    {
      hide AllocHost, HostItem;
      if server.hostname != [] { AddHost(HostItem(Some(server.hostname), server), flush); }
      var i := 0;
      while i < |server.hosts|
        invariant i <= |server.hosts|
        invariant AllocHosts(answers, server.hosts, i, flush) == AnyHosts(old(answers), server, flush)
      {
        i := i + 1;
        AddHost(if i < |server.hosts| then Delegated(server.hosts[i]) else NoHost, flush);
      }
    }

    method AddServices(q: Question, query: Query, shared: bool, flush: bool, server: Server) returns (count: nat)
      requires shared == Shared(q, query) && flush == Flush(query)
      modifies this
      ensures (Contents(), count) == AskServices(old(Contents()), q, query, server, |server.services|)
    {
      hide MatchPtr, FromService, Suppresses;
      count := 0;
      for i := 0 to |server.services|
        invariant (Contents(), count) == AskServices(old(Contents()), q, query, server, i)
      {
        var s := server.services[i];
        if MatchPtr(s, q, server) {
          var known := IsKnown(s, query.records, server);
          if !known {
            AddFromService(s, q, shared, flush, server);
            count := count + 1;
          }
        }
      }
    }

    /** One turn of the loop over the questions, short of the service look-up that may pass it over. */
    method AddForQuestion(q: Question, query: Query, shared: bool, flush: bool, server: Server) returns (count: nat)
      requires shared == Shared(q, query) && flush == Flush(query) && !PassedOver(q, server)
      modifies this
      ensures (Contents(), count) == Ask(old(Contents()), q, query, server)
    {
      hide AskServices, FromService, AllocHost, AllocHosts, Alloc, HostItem, Meant;
      count := 1;
      if q.qtype == TYPE_SRV || q.qtype == TYPE_TXT {
        AddFromService(server.services[FindService(q, server, 0)], q, shared, flush, server);
      } else if q.service.Some? && q.proto.Some? {
        count := AddServices(q, query, shared, flush, server);
      } else if q.qtype == TYPE_A || q.qtype == TYPE_AAAA {
        AddHost(HostItem(q.host, server), flush);
      } else if q.qtype == TYPE_ANY {
        AddHostList(server, flush);
      } else {
        AddAnswer(q.qtype, None, NoHost, flush);
      }
    }
  }

  method AllocAnswer(l: seq<Answer>, rtype: nat, service: Option<nat>, host: HostRef, flush: bool)
    returns (r: seq<Answer>)
    ensures r == Alloc(l, rtype, service, host, flush)
  {
    for i := 0 to |l|
      invariant forall k :: 0 <= k < i ==> !(l[k].rtype == rtype && l[k].service == service && l[k].host == host)
    {
      if l[i].rtype == rtype && l[i].service == service && l[i].host == host { return l; }
    }
    return l + [Answer(rtype, service, host, flush, false)];
  }

  method IsKnown(s: Service, records: seq<Known>, server: Server) returns (known: bool)
    ensures known == KnownAnswer(s, records, server)
  {
    hide MatchInstance, Match;
    for i := 0 to |records|
      invariant forall k :: 0 <= k < i ==> !Suppresses(records[k], s, server)
    {
      var r := records[i];
      if s.instance.Some? && r.host.Some? {
        if MatchInstance(s, r.host, r.service, r.proto, server) && r.ttl > LONG_TTL / 2 { return true; }
      } else if s.instance.None? && r.host.None? {
        if Match(s, r.service, r.proto) && r.ttl > LONG_TTL / 2 { return true; }
      }
    }
    return false;
  }

  method CreateAnswerFromParsedPacket(query: Query, server: Server) returns (reply: Reply)
    ensures reply == ReplyTo(query, server)
  {
    hide Ask, PassedOver, Shared;
    if query.questions == [] { return NoReply; }
    var flush := query.srcPort == SERVICE_PORT;
    var unicast, shared, count := false, false, 0;
    var packet := new OutPacket();
    for i := 0 to |query.questions|
      invariant After(query, server, i) == Progress(packet.Contents(), count, unicast, shared)
    {
      var q := query.questions[i];
      shared := Shared(q, query);
      if PassedOver(q, server) { continue; }
      var c := packet.AddForQuestion(q, query, shared, flush, server);
      count := count + c;
      if query.srcPort != SERVICE_PORT && (q.qtype == TYPE_ANY || q.qtype == TYPE_A || q.qtype == TYPE_AAAA) {
        packet.echoed := packet.echoed + [q];
      }
      if q.unicast { unicast := true; }
    }
    if count == 0 { return NoReply; }
    return Reply(packet.Contents(), unicast || !flush, shared);
  }
}
