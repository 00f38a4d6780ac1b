/**
 What replies ought to hold, said independently of how they are built: the known answers of section
 7.1 of RFC 6762, and the addresses of all hosts for a question about anything.
 */
module AnswerRules {
  import opened Bytes
  import opened Txt
  import opened Answers
  import opened Wire

  // ---------------------------------------------------------------- known answers

  /** The querier has the PTR record of the service, with at least half of its lifetime left. */
  predicate HasRecord(r: Known, s: Service, server: Server) {
    && 2 * r.ttl >= LONG_TTL
    && r.service.Some? && CaseEq(s.service, r.service.value)
    && r.proto.Some? && CaseEq(s.proto, r.proto.value)
    && r.host.Some? && CaseEq(InstanceName(s, server), r.host.value)
  }

  /** The service has an instance name of its own. */
  predicate Named(s: Service) {
    !Empty(s.instance)
  }

  /** The PTR record of a service, as another responder knows it. */
  function PtrOf(s: Service, server: Server): Known {
    Known(Some(InstanceName(s, server)), Some(s.service), Some(s.proto), LONG_TTL)
  }

  /**
   A known answer is honoured exactly when it is one, save at precisely half of the lifetime, if and
   only if the service has an instance name of its own.
   */
  lemma KnownAnswersHonoured(s: Service, server: Server)
    requires server.hostname != []
    ensures (forall r: Known :: 2 * r.ttl != LONG_TTL ==> Suppresses(r, s, server) == HasRecord(r, s, server)) ==
            Named(s)
  {
    hide CaseEq;
    if Named(s) {
      forall r: Known | 2 * r.ttl != LONG_TTL ensures Suppresses(r, s, server) == HasRecord(r, s, server) {}
    } else {
      NotHonoured(s, server);
      var r := PtrOf(s, server);
      assert 2 * r.ttl != LONG_TTL;
    }
  }

  /** A service without instance name is known by the default one, which the test does not look at. */
  lemma NotHonoured(s: Service, server: Server)
    requires server.hostname != [] && !Named(s)
    ensures HasRecord(PtrOf(s, server), s, server) && !Suppresses(PtrOf(s, server), s, server)
  {
    CaseEqSelf(s.service);
    CaseEqSelf(s.proto);
    CaseEqSelf(InstanceName(s, server));
  }

  /** With exactly half of the lifetime left the service is answered for all the same. */
  lemma HalfIsAnswered(r: Known, s: Service, server: Server)
    requires 2 * r.ttl == LONG_TTL
    ensures !Suppresses(r, s, server)
  {
  }

  /** No record of the query spares the service by the rule. */
  predicate Unknown(s: Service, records: seq<Known>, server: Server) {
    forall i :: 0 <= i < |records| ==> !HasRecord(records[i], s, server)
  }

  /** One of the first `n` questions asks for the PTR record of a registered service `id` that is not known. */
  ghost predicate AskedFor(query: Query, id: nat, server: Server, n: nat)
    requires n <= |query.questions|
  {
    exists i, k :: 0 <= i < n && 0 <= k < |server.services| && AskedBy(query, i, k, id, server)
  }

  predicate AskedBy(query: Query, i: nat, k: nat, id: nat, server: Server)
    requires i < |query.questions| && k < |server.services|
  {
    var q, s := query.questions[i], server.services[k];
    && s.id == id && (q.qtype == TYPE_PTR || q.qtype == TYPE_ANY) && q.service.Some? && q.proto.Some?
    && MatchPtr(s, q, server) && Unknown(s, query.records, server)
  }

  lemma RuleKnown(s: Service, records: seq<Known>, server: Server)
    requires server.hostname != [] && Named(s)
    requires forall i :: 0 <= i < |records| ==> 2 * records[i].ttl != LONG_TTL
    ensures KnownAnswer(s, records, server) == !Unknown(s, records, server)
  {
    KnownAnswersHonoured(s, server);
    hide Suppresses, HasRecord, Named;
    if KnownAnswer(s, records, server) {
      var i :| 0 <= i < |records| && Suppresses(records[i], s, server);
      assert HasRecord(records[i], s, server);
    }
    if !Unknown(s, records, server) {
      var i :| 0 <= i < |records| && HasRecord(records[i], s, server);
      assert Suppresses(records[i], s, server);
    }
  }

  /**
   The rule at the level of replies: with instance names of their own, and no known answer at
   precisely half of its lifetime, the services whose PTR record is in the reply are exactly those that
   a question asks for and that no known answer spares.
   */
  lemma ReplyFollowsTheRule(query: Query, server: Server, id: nat)
    requires Distinct(server) && server.hostname != []
    requires forall k :: 0 <= k < |server.services| ==> Named(server.services[k])
    requires forall i :: 0 <= i < |query.records| ==> 2 * query.records[i].ttl != LONG_TTL
    ensures var reply := ReplyTo(query, server);
            (reply.Reply? && Has(reply.lists.answers, TYPE_PTR, Some(id), NoHost))
              == AskedFor(query, id, server, |query.questions|)
  {
    ReplyIsExact(query, server);
    hide ReplyTo, Has, MatchPtr, KnownAnswer, Unknown, Sound;
    forall k | 0 <= k < |server.services|
      ensures KnownAnswer(server.services[k], query.records, server) ==
              !Unknown(server.services[k], query.records, server)
    {
      RuleKnown(server.services[k], query.records, server);
    }
    WantedIsAsked(query, server, id, |query.questions|);
  }

  lemma WantedIsAsked(query: Query, server: Server, id: nat, n: nat)
    requires n <= |query.questions|
    requires forall k :: 0 <= k < |server.services| ==>
               KnownAnswer(server.services[k], query.records, server) ==
               !Unknown(server.services[k], query.records, server)
    ensures Wanted(query, TYPE_PTR, id, server, n) == AskedFor(query, id, server, n)
  {
    hide MatchPtr, KnownAnswer, Unknown;
    if Wanted(query, TYPE_PTR, id, server, n) {
      var i :| 0 <= i < n && Wants(query.questions[i], TYPE_PTR, id, query, server);
      var k :| 0 <= k < |server.services| && server.services[k].id == id
        && MatchPtr(server.services[k], query.questions[i], server)
        && !KnownAnswer(server.services[k], query.records, server);
      assert AskedBy(query, i, k, id, server);
    }
    if AskedFor(query, id, server, n) {
      var i, k :| 0 <= i < n && 0 <= k < |server.services| && AskedBy(query, i, k, id, server);
      assert Called(query.questions[i], id, query, server, |server.services|);
      assert Wants(query.questions[i], TYPE_PTR, id, query, server);
    }
  }

  /** A question for any record of a service type, with the PTR record of the only service already known. */
  function KnowingQuery(s: Service, server: Server): Query {
    Query([Question(TYPE_ANY, false, false, None, Some(s.service), Some(s.proto))],
          [PtrOf(s, server)], SERVICE_PORT, false)
  }

  /** Where the rule fails: a lone service without instance name is answered for although it is known. */
  lemma NamelessIsAnswered(s: Service, server: Server)
    requires server.services == [s] && server.hostname != [] && s.hostname.Some? && !Named(s)
    ensures var query := KnowingQuery(s, server); var reply := ReplyTo(query, server);
            && HasRecord(query.records[0], s, server) && query.records[0].ttl == LONG_TTL
            && reply.Reply? && Has(reply.lists.answers, TYPE_PTR, Some(s.id), NoHost)
  {
    var query := KnowingQuery(s, server);
    NotHonoured(s, server);
    CaseEqSelf(s.service);
    CaseEqSelf(s.proto);
    assert MatchPtr(server.services[0], query.questions[0], server);
    assert !KnownAnswer(s, query.records, server);
    assert Called(query.questions[0], s.id, query, server, 1);
    assert Wants(query.questions[0], TYPE_PTR, s.id, query, server);
    assert Wanted(query, TYPE_PTR, s.id, server, 1);
    ReplyIsExact(query, server);
  }

  // ---------------------------------------------------------------- hosts

  /** The address records of a host are in the list. */
  predicate Answered(l: seq<Answer>, host: HostRef) {
    Has(l, TYPE_A, None, host) && Has(l, TYPE_AAAA, None, host)
  }

  lemma AllocHostHas(l: seq<Answer>, host: HostRef, flush: bool, h: HostRef)
    ensures Answered(AllocHost(l, host, flush), h) == (Answered(l, h) || h == host)
  {
    var a := Alloc(l, TYPE_A, None, host, flush);
    AllocHas(l, TYPE_A, None, host, flush, TYPE_A, None, h);
    AllocHas(l, TYPE_A, None, host, flush, TYPE_AAAA, None, h);
    AllocHas(a, TYPE_AAAA, None, host, flush, TYPE_A, None, h);
    AllocHas(a, TYPE_AAAA, None, host, flush, TYPE_AAAA, None, h);
  }

  /** The host is in the list of delegated ones at index `i` or behind. */
  predicate From(hosts: seq<text>, i: nat, h: HostRef) {
    exists k :: i <= k < |hosts| && h == Delegated(hosts[k])
  }

  /** The walk from index `i` adds the hosts behind it, and a void one at its end. */
  lemma {:induction false} AllocHostsHas(l: seq<Answer>, hosts: seq<text>, i: nat, flush: bool, h: HostRef)
    requires i <= |hosts|
    ensures Answered(AllocHosts(l, hosts, i, flush), h) ==
            (Answered(l, h) || (h == NoHost && i < |hosts|) || From(hosts, i + 1, h))
    decreases |hosts| - i
  {
    if i < |hosts| {
      var host := if i + 1 < |hosts| then Delegated(hosts[i + 1]) else NoHost;
      AllocHostHas(l, host, flush, h);
      hide Answered, AllocHost;
      AllocHostsHas(AllocHost(l, host, flush), hosts, i + 1, flush, h);
      if From(hosts, i + 1, h) && !From(hosts, i + 2, h) {
        var k :| i + 1 <= k < |hosts| && h == Delegated(hosts[k]);
        assert k == i + 1;
      }
      if From(hosts, i + 2, h) {
        var k :| i + 2 <= k < |hosts| && h == Delegated(hosts[k]);
        assert From(hosts, i + 1, h);
      }
      if i + 1 < |hosts| && h == host { assert h == Delegated(hosts[i + 1]); }
    }
  }

  /** What a question about anything adds: the own host, the delegated ones but the first, and a void one. */
  lemma AnyHostsHas(l: seq<Answer>, server: Server, flush: bool, h: HostRef)
    requires server.hostname != []
    ensures Answered(AnyHosts(l, server, flush), h) ==
            (Answered(l, h) || h == SelfHost || (h == NoHost && server.hosts != []) || From(server.hosts, 1, h))
  {
    CaseEqSelf(server.hostname);
    assert HostItem(Some(server.hostname), server) == SelfHost;
    AllocHostHas(l, SelfHost, flush, h);
    hide Answered, AllocHost, AllocHosts;
    AllocHostsHas(AllocHost(l, SelfHost, flush), server.hosts, 0, flush, h);
  }

  /**
   Every delegated host is answered for exactly when there is none, the first one is in the list
   already, or it occurs again.
   */
  lemma AllHostsAnswered(l: seq<Answer>, server: Server, flush: bool)
    requires server.hostname != []
    ensures var r, hosts := AnyHosts(l, server, flush), server.hosts;
            (forall k :: 0 <= k < |hosts| ==> Answered(r, Delegated(hosts[k]))) ==
            (hosts == [] || Answered(l, Delegated(hosts[0])) || From(hosts, 1, Delegated(hosts[0])))
  {
    hide Answered, AnyHosts;
    var r, hosts := AnyHosts(l, server, flush), server.hosts;
    forall k | 0 <= k < |hosts|
      ensures Answered(r, Delegated(hosts[k])) ==
              (Answered(l, Delegated(hosts[k])) || From(hosts, 1, Delegated(hosts[k])))
    {
      AnyHostsHas(l, server, flush, Delegated(hosts[k]));
    }
    forall k | 1 <= k < |hosts| ensures From(hosts, 1, Delegated(hosts[k])) {}
  }

  /** The list as it is kept: a host is only added when it is not there. */
  lemma FirstHostMissed(l: seq<Answer>, server: Server, flush: bool)
    requires server.hostname != [] && server.hosts != [] && !Answered(l, Delegated(server.hosts[0]))
    requires forall i, j :: 0 <= i < j < |server.hosts| ==> !CaseEq(server.hosts[i], server.hosts[j])
    ensures !Answered(AnyHosts(l, server, flush), Delegated(server.hosts[0]))
    ensures forall k :: 1 <= k < |server.hosts| ==> Answered(AnyHosts(l, server, flush), Delegated(server.hosts[k]))
  {
    hide Answered, AnyHosts;
    var hosts := server.hosts;
    forall k | 0 <= k < |hosts|
      ensures Answered(AnyHosts(l, server, flush), Delegated(hosts[k])) ==
              (Answered(l, Delegated(hosts[k])) || From(hosts, 1, Delegated(hosts[k])))
    {
      AnyHostsHas(l, server, flush, Delegated(hosts[k]));
    }
    forall k | 1 <= k < |hosts| ensures hosts[k] != hosts[0] && From(hosts, 1, Delegated(hosts[k])) {
      CaseEqSelf(hosts[k]);
      assert !CaseEq(hosts[0], hosts[k]);
    }
  }

  /** `_mdns_name_is_ours` for the name of a host: the own one or a delegated one. */
  predicate HostIsOurs(host: text, server: Server) {
    && host != [] && server.hostname != []
    && (CaseEq(host, server.hostname) || exists k :: 0 <= k < |server.hosts| && CaseEq(host, server.hosts[k]))
  }

  /** A question about anything under a host's name, which the parser takes for a probe. */
  function AnyQuery(host: text, unicast: bool, port: nat): Query {
    Query([Question(TYPE_ANY, false, unicast, Some(host), None, None)], [], port, true)
  }

  /**
   With a single delegated host its addresses are missing, and those of no host at all are sent,
   whichever of the two names is asked about.
   */
  lemma OnlyHostIsMissed(server: Server, name: text, host: text, unicast: bool, port: nat)
    requires server.hosts == [name] && HostIsOurs(host, server)
    ensures var reply := ReplyTo(AnyQuery(host, unicast, port), server);
            reply.Reply? && Answered(reply.lists.answers, SelfHost) && Answered(reply.lists.answers, NoHost)
            && !Answered(reply.lists.answers, Delegated(name))
  {
    var query := AnyQuery(host, unicast, port);
    var q := query.questions[0];
    hide Answered, AnyHosts, HostIsOurs;
    assert server.hostname != [] by { HasName(server, host); }
    AnyHostsHas([], server, Flush(query), SelfHost);
    AnyHostsHas([], server, Flush(query), NoHost);
    AnyHostsHas([], server, Flush(query), Delegated(name));
    NothingAnswered(Delegated(name));
    assert !PassedOver(q, server);
    assert After(query, server, 0).lists == Lists([], [], []);
    assert After(query, server, 1).lists.answers == AnyHosts([], server, Flush(query));
  }

  lemma HasName(server: Server, host: text)
    requires HostIsOurs(host, server)
    ensures server.hostname != []
  {
  }

  /** That very question: about the delegated host itself. */
  lemma DelegatedHostAsked(server: Server, name: text)
    requires server.hostname != [] && server.hosts == [name] && name != []
    ensures HostIsOurs(name, server)
  {
    CaseEqSelf(name);
    assert CaseEq(name, server.hosts[0]);
  }

  lemma NothingAnswered(h: HostRef)
    ensures !Answered([], h)
  {
  }
}
