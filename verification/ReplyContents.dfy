/**
 What a reply holds besides the records of services: the addresses of hosts, what is sent along, the
 flags of each record, and the questions repeated.
 */
module ReplyContents {
  import opened Bytes
  import opened Txt
  import opened Answers
  import opened AnswerRules
  import opened Wire

  // ---------------------------------------------------------------- which host a name means

  /** Host `k` is the first delegated one of that name, up to case. */
  predicate FirstNamed(hosts: seq<text>, name: text, k: nat) {
    k < |hosts| && CaseEq(hosts[k], name) && forall j :: 0 <= j < k ==> !CaseEq(hosts[j], name)
  }

  /** The host a name means: the own one, or no name, the responder; else the first delegated host, or none. */
  predicate IsHostOf(h: HostRef, name: Option<text>, server: Server) {
    var own := name.None? || CaseEq(name.value, server.hostname);
    match h
    case SelfHost => own
    case Delegated(n) => !own && exists k :: 0 <= k < |server.hosts| && FirstNamed(server.hosts, name.value, k) &&
                                             server.hosts[k] == n
    case NoHost => !own && forall k :: 0 <= k < |server.hosts| ==> !CaseEq(server.hosts[k], name.value)
  }

  lemma HostItemIs(name: Option<text>, server: Server, h: HostRef)
    ensures h == HostItem(name, server) <==> IsHostOf(h, name, server)
  {
    if name.Some? { FindHostIs(server.hosts, name.value, h); }
    hide CaseEq;
  }

  lemma {:induction false} FindHostIs(hosts: seq<text>, name: text, h: HostRef)
    ensures h == FindHost(hosts, name) <==>
            match h
            case SelfHost => false
            case Delegated(n) => exists k :: 0 <= k < |hosts| && FirstNamed(hosts, name, k) && hosts[k] == n
            case NoHost => forall k :: 0 <= k < |hosts| ==> !CaseEq(hosts[k], name)
  {
    hide CaseEq;
    if hosts != [] {
      FindHostIs(hosts[1..], name, h);
      if CaseEq(hosts[0], name) { assert FirstNamed(hosts, name, 0); }
      else if h.Delegated? {
        FirstBehind(hosts, name, h.name);
      }
    }
  }

  lemma FirstBehind(hosts: seq<text>, name: text, n: text)
    requires hosts != [] && !CaseEq(hosts[0], name)
    ensures (exists k :: 0 <= k < |hosts| && FirstNamed(hosts, name, k) && hosts[k] == n) <==>
            (exists k :: 0 <= k < |hosts[1..]| && FirstNamed(hosts[1..], name, k) && hosts[1..][k] == n)
  {
    hide CaseEq;
    if k :| 0 <= k < |hosts| && FirstNamed(hosts, name, k) && hosts[k] == n {
      assert k > 0 && FirstNamed(hosts[1..], name, k - 1);
    }
    if k :| 0 <= k < |hosts[1..]| && FirstNamed(hosts[1..], name, k) && hosts[1..][k] == n {
      forall j | 0 <= j < k + 1 ensures !CaseEq(hosts[j], name) {
        if j > 0 { assert hosts[1..][j - 1] == hosts[j]; }
      }
      assert FirstNamed(hosts, name, k + 1);
    }
  }

  // ---------------------------------------------------------------- the addresses of hosts

  predicate AboutHost(q: Question) {
    q.service.None? || q.proto.None?
  }

  predicate IsAddress(t: nat) {
    t == TYPE_A || t == TYPE_AAAA
  }

  /** An address question about the host, or a question for anything, which takes in all but the first of them. */
  predicate AsksFor(q: Question, h: HostRef, server: Server) {
    AboutHost(q) &&
    if IsAddress(q.qtype) then IsHostOf(h, q.host, server)
    else q.qtype == TYPE_ANY && InAny(h, server)
  }

  predicate InAny(h: HostRef, server: Server) {
    || (h == SelfHost && server.hostname != [])
    || (h == NoHost && server.hosts != [])
    || From(server.hosts, 1, h)
  }

  lemma AllocHostIs(l: seq<Answer>, host: HostRef, flush: bool, t: nat, h: HostRef)
    requires IsAddress(t)
    ensures Has(AllocHost(l, host, flush), t, None, h) == (Has(l, t, None, h) || h == host)
  {
    AllocHas(l, TYPE_A, None, host, flush, t, None, h);
    AllocHas(Alloc(l, TYPE_A, None, host, flush), TYPE_AAAA, None, host, flush, t, None, h);
  }

  lemma {:induction false} AllocHostsIs(l: seq<Answer>, hosts: seq<text>, i: nat, flush: bool, t: nat, h: HostRef)
    requires i <= |hosts| && IsAddress(t)
    ensures Has(AllocHosts(l, hosts, i, flush), t, None, h) ==
            (Has(l, t, None, h) || (h == NoHost && i < |hosts|) || From(hosts, i + 1, h))
    decreases |hosts| - i
  {
    if i < |hosts| {
      var host := if i + 1 < |hosts| then Delegated(hosts[i + 1]) else NoHost;
      AllocHostIs(l, host, flush, t, h);
      hide Has, AllocHost;
      AllocHostsIs(AllocHost(l, host, flush), hosts, i + 1, flush, t, h);
      FromNext(hosts, i + 1, h);
    }
  }

  lemma FromNext(hosts: seq<text>, i: nat, h: HostRef)
    ensures From(hosts, i, h) == ((i < |hosts| && h == Delegated(hosts[i])) || From(hosts, i + 1, h))
  {
    if From(hosts, i, h) {
      var k :| i <= k < |hosts| && h == Delegated(hosts[k]);
      if k > i { assert From(hosts, i + 1, h); }
    }
    if From(hosts, i + 1, h) {
      var k :| i + 1 <= k < |hosts| && h == Delegated(hosts[k]);
      assert From(hosts, i, h);
    }
  }

  lemma AnyHostsIs(l: seq<Answer>, server: Server, flush: bool, t: nat, h: HostRef)
    requires IsAddress(t)
    ensures Has(AnyHosts(l, server, flush), t, None, h) == (Has(l, t, None, h) || InAny(h, server))
  {
    CaseEqSelf(server.hostname);
    assert HostItem(Some(server.hostname), server) == SelfHost;
    AllocHostIs(l, SelfHost, flush, t, h);
    var own := if server.hostname == [] then l else AllocHost(l, SelfHost, flush);
    hide Has, AllocHost, AllocHosts, From;
    AllocHostsIs(own, server.hosts, 0, flush, t, h);
  }

  /** The records of services are none of a host alone. */
  lemma FromServiceHosts(l: Lists, s: Service, q: Question, shared: bool, flush: bool, server: Server,
                         t: nat, h: HostRef)
    ensures Has(FromService(l, s, q, shared, flush, server).answers, t, None, h) == Has(l.answers, t, None, h)
  {
    var host := HostItem(s.hostname, server);
    var first := if q.qtype == TYPE_ANY then TYPE_PTR else q.qtype;
    var f := flush && first != TYPE_PTR && first != TYPE_SDPTR;
    AllocHas(l.answers, first, Some(s.id), NoHost, f, t, None, h);
    var one := Alloc(l.answers, first, Some(s.id), NoHost, f);
    AllocHas(one, TYPE_A, Some(s.id), host, flush, t, None, h);
    AllocHas(Alloc(one, TYPE_A, Some(s.id), host, flush), TYPE_AAAA, Some(s.id), host, flush, t, None, h);
  }

  lemma {:induction false} AskServicesHosts(l: Lists, q: Question, query: Query, server: Server, n: nat,
                                            t: nat, h: HostRef)
    requires n <= |server.services|
    ensures Has(AskServices(l, q, query, server, n).0.answers, t, None, h) == Has(l.answers, t, None, h)
  {
    hide MatchPtr, KnownAnswer, Has, FromService;
    if n > 0 {
      AskServicesHosts(l, q, query, server, n - 1, t, h);
      var m := AskServices(l, q, query, server, n - 1).0;
      FromServiceHosts(m, server.services[n - 1], q, Shared(q, query), Flush(query), server, t, h);
    }
  }

  lemma AskHosts(l: Lists, q: Question, query: Query, server: Server, t: nat, h: HostRef)
    requires IsAddress(t)
    ensures Has(Ask(l, q, query, server).0.answers, t, None, h) ==
            (Has(l.answers, t, None, h) || AsksFor(q, h, server))
    ensures AsksFor(q, h, server) ==> Ask(l, q, query, server).1 > 0 && !PassedOver(q, server)
  {
    hide MatchPtr, KnownAnswer, Has, FromService, AskServices, AllocHost, AnyHosts, Alloc, Meant, HostItem;
    hide IsHostOf, InAny;
    var flush := Flush(query);
    if q.qtype == TYPE_SRV || q.qtype == TYPE_TXT {
      var i := FindService(q, server, 0);
      if i >= 0 { FromServiceHosts(l, server.services[i], q, Shared(q, query), flush, server, t, h); }
    } else if q.service.Some? && q.proto.Some? {
      AskServicesHosts(l, q, query, server, |server.services|, t, h);
    } else if IsAddress(q.qtype) {
      HostItemIs(q.host, server, h);
      AllocHostIs(l.answers, HostItem(q.host, server), flush, t, h);
    } else if q.qtype == TYPE_ANY {
      AnyHostsIs(l.answers, server, flush, t, h);
    } else {
      AllocHas(l.answers, q.qtype, None, NoHost, flush, t, None, h);
    }
  }

  /** One of the first `n` questions asks for the host. */
  predicate HostAsked(query: Query, h: HostRef, server: Server, n: nat)
    requires n <= |query.questions|
  {
    exists i :: 0 <= i < n && AsksFor(query.questions[i], h, server)
  }

  lemma {:induction false} AfterHosts(query: Query, server: Server, n: nat, t: nat, h: HostRef)
    requires n <= |query.questions| && IsAddress(t)
    ensures Has(After(query, server, n).lists.answers, t, None, h) == HostAsked(query, h, server, n)
    ensures HostAsked(query, h, server, n) ==> After(query, server, n).count > 0
  {
    hide Has, Ask, AsksFor, PassedOver;
    if n > 0 {
      AfterHosts(query, server, n - 1, t, h);
      var q := query.questions[n - 1];
      AskHosts(After(query, server, n - 1).lists, q, query, server, t, h);
      assert HostAsked(query, h, server, n) == (HostAsked(query, h, server, n - 1) || AsksFor(q, h, server)) by {
        if HostAsked(query, h, server, n - 1) {
          var i :| 0 <= i < n - 1 && AsksFor(query.questions[i], h, server);
          assert HostAsked(query, h, server, n);
        }
      }
      if PassedOver(q, server) { NotAsked(q, h, server); }
    } else {
      NoAnswers(t, h);
    }
  }

  lemma NoAnswers(t: nat, h: HostRef)
    ensures !Has([], t, None, h)
  {
  }

  lemma NotAsked(q: Question, h: HostRef, server: Server)
    requires PassedOver(q, server)
    ensures !AsksFor(q, h, server)
  {
  }

  /**
   The address records of a host are in the reply if and only if a question asks for them: one for
   addresses under a name that means the host, or one for anything.
   */
  lemma HostsAreExact(query: Query, server: Server, t: nat, h: HostRef)
    requires IsAddress(t)
    ensures var reply := ReplyTo(query, server);
            (reply.Reply? && Has(reply.lists.answers, t, None, h)) == HostAsked(query, h, server, |query.questions|)
  {
    AfterHosts(query, server, |query.questions|, t, h);
    hide After, Has;
  }

  /** A question for the address of a host: the records of the host meant are there, and of no other one. */
  lemma AddressQuestion(server: Server, qtype: nat, unicast: bool, name: text, port: nat, probe: bool, h: HostRef)
    requires IsAddress(qtype)
    ensures var q := Question(qtype, false, unicast, Some(name), None, None);
            var reply := ReplyTo(Query([q], [], port, probe), server);
            reply.Reply? && Answered(reply.lists.answers, h) == IsHostOf(h, Some(name), server)
  {
    var q := Question(qtype, false, unicast, Some(name), None, None);
    var query := Query([q], [], port, probe);
    hide ReplyTo, Has, HostItem;
    HostItemIs(Some(name), server, HostItem(Some(name), server));
    hide IsHostOf;
    assert query.questions[0] == q;
    forall g: HostRef ensures HostAsked(query, g, server, 1) == IsHostOf(g, Some(name), server) {
      if IsHostOf(g, Some(name), server) { assert AsksFor(query.questions[0], g, server); }
    }
    HostsAreExact(query, server, TYPE_A, HostItem(Some(name), server));
    HostsAreExact(query, server, TYPE_A, h);
    HostsAreExact(query, server, TYPE_AAAA, h);
  }

  // ---------------------------------------------------------------- names

  /** The labels of a question's name in front of the domain. */
  function NameOf(q: Question): seq<text>
    requires q.service.Some? && q.proto.Some?
  {
    (if q.host.Some? then [q.host.value] else []) + (if q.sub then [SUB] else []) + [q.service.value, q.proto.value]
  }

  /** The names a service has PTR records under, and that of its instance. */
  predicate GoesBy(s: Service, name: seq<text>, server: Server) {
    || CaseEqAll([s.service, s.proto], name)
    || CaseEqAll([InstanceName(s, server), s.service, s.proto], name)
    || exists i :: 0 <= i < |s.subtypes| && CaseEqAll([s.subtypes[i], SUB, s.service, s.proto], name)
  }

  /** A question matches a service that has a host exactly when the service goes by its name. */
  lemma MatchIsByName(s: Service, q: Question, server: Server)
    requires q.service.Some? && q.proto.Some? && (q.sub ==> q.host.Some?)
    ensures MatchPtr(s, q, server) == (s.hostname.Some? && GoesBy(s, NameOf(q), server))
  {
    CaseEqSelf(SUB);
    hide CaseEq;
    if q.sub {
      assert NameOf(q) == [q.host.value, SUB, q.service.value, q.proto.value];
      forall i | 0 <= i < |s.subtypes|
        ensures CaseEqAll([s.subtypes[i], SUB, s.service, s.proto], NameOf(q)) ==
                (CaseEq(s.subtypes[i], q.host.value) && CaseEq(s.service, q.service.value)
                 && CaseEq(s.proto, q.proto.value))
      {
        FourLabels(s.subtypes[i], SUB, s.service, s.proto, NameOf(q));
      }
    } else if q.host.Some? {
      assert NameOf(q) == [q.host.value, q.service.value, q.proto.value];
      ThreeLabels(InstanceName(s, server), s.service, s.proto, NameOf(q));
    } else {
      assert NameOf(q) == [q.service.value, q.proto.value];
      TwoLabels(s.service, s.proto, NameOf(q));
    }
  }

  lemma TwoLabels(a: text, b: text, name: seq<text>)
    requires |name| == 2
    ensures CaseEqAll([a, b], name) == (CaseEq(a, name[0]) && CaseEq(b, name[1]))
  {
    hide CaseEq;
    var l := [a, b];
    assert l[0] == a && l[1] == b;
  }

  lemma ThreeLabels(a: text, b: text, c: text, name: seq<text>)
    requires |name| == 3
    ensures CaseEqAll([a, b, c], name) == (CaseEq(a, name[0]) && CaseEq(b, name[1]) && CaseEq(c, name[2]))
  {
    hide CaseEq;
    var l := [a, b, c];
    assert l[0] == a && l[1] == b && l[2] == c;
  }

  lemma FourLabels(a: text, b: text, c: text, d: text, name: seq<text>)
    requires |name| == 4
    ensures CaseEqAll([a, b, c, d], name) ==
            (CaseEq(a, name[0]) && CaseEq(b, name[1]) && CaseEq(c, name[2]) && CaseEq(d, name[3]))
  {
    hide CaseEq;
    var l := [a, b, c, d];
    assert l[0] == a && l[1] == b && l[2] == c && l[3] == d;
  }

  /** An SRV or TXT question with an instance name means a service exactly when that is its name. */
  lemma MeantIsByName(s: Service, q: Question, server: Server)
    requires q.service.Some? && q.proto.Some? && q.host.Some? && !q.sub && s.instance != Some([])
    ensures Meant(s, q, server) == CaseEqAll([InstanceName(s, server), s.service, s.proto], NameOf(q))
  {
    hide CaseEq;
    assert NameOf(q) == [q.host.value, q.service.value, q.proto.value];
    ThreeLabels(InstanceName(s, server), s.service, s.proto, NameOf(q));
  }

  // ---------------------------------------------------------------- flags

  /** No goodbyes; a cache flush in replies to the service port, but not for shared records of services. */
  predicate Flags(l: seq<Answer>, flush: bool) {
    forall k :: 0 <= k < |l| ==> !l[k].bye && l[k].flush == (flush && !IsShared(l[k]))
  }

  predicate IsShared(a: Answer) {
    a.service.Some? && (a.rtype == TYPE_PTR || a.rtype == TYPE_SDPTR)
  }

  lemma AllocFlags(l: seq<Answer>, rtype: nat, service: Option<nat>, host: HostRef, f: bool, flush: bool)
    requires Flags(l, flush) && f == (flush && !IsShared(Answer(rtype, service, host, f, false)))
    ensures Flags(Alloc(l, rtype, service, host, f), flush)
  {
    hide Has;
  }

  lemma FromServiceFlags(l: Lists, s: Service, q: Question, shared: bool, flush: bool, server: Server)
    requires Flags(l.answers, flush) && Flags(l.additional, flush)
    ensures var m := FromService(l, s, q, shared, flush, server);
            Flags(m.answers, flush) && Flags(m.additional, flush)
  {
    hide Flags, HostItem, Alloc;
    var host := HostItem(s.hostname, server);
    var first := if q.qtype == TYPE_ANY then TYPE_PTR else q.qtype;
    var f := flush && first != TYPE_PTR && first != TYPE_SDPTR;
    AllocFlags(l.answers, first, Some(s.id), NoHost, f, flush);
    AllocFlags(l.additional, TYPE_SRV, Some(s.id), NoHost, flush, flush);
    var srv := Alloc(l.additional, TYPE_SRV, Some(s.id), NoHost, flush);
    AllocFlags(srv, TYPE_TXT, Some(s.id), NoHost, flush, flush);
    AddressFlags(Alloc(l.answers, first, Some(s.id), NoHost, f), Some(s.id), host, flush);
    AddressFlags(l.additional, Some(s.id), host, flush);
    AddressFlags(Alloc(srv, TYPE_TXT, Some(s.id), NoHost, flush), Some(s.id), host, flush);
  }

  lemma AddressFlags(l: seq<Answer>, service: Option<nat>, host: HostRef, flush: bool)
    requires Flags(l, flush)
    ensures Flags(Alloc(Alloc(l, TYPE_A, service, host, flush), TYPE_AAAA, service, host, flush), flush)
  {
    hide Flags, Alloc;
    AllocFlags(l, TYPE_A, service, host, flush, flush);
    AllocFlags(Alloc(l, TYPE_A, service, host, flush), TYPE_AAAA, service, host, flush, flush);
  }

  lemma {:induction false} AllocHostsFlags(l: seq<Answer>, hosts: seq<text>, i: nat, flush: bool)
    requires i <= |hosts| && Flags(l, flush)
    ensures Flags(AllocHosts(l, hosts, i, flush), flush)
    decreases |hosts| - i
  {
    hide Flags, Alloc;
    if i < |hosts| {
      var host := if i + 1 < |hosts| then Delegated(hosts[i + 1]) else NoHost;
      AddressFlags(l, None, host, flush);
      AllocHostsFlags(AllocHost(l, host, flush), hosts, i + 1, flush);
    }
  }

  lemma {:induction false} AskServicesFlags(l: Lists, q: Question, query: Query, server: Server, n: nat)
    requires n <= |server.services| && Flags(l.answers, Flush(query)) && Flags(l.additional, Flush(query))
    ensures var m := AskServices(l, q, query, server, n).0;
            Flags(m.answers, Flush(query)) && Flags(m.additional, Flush(query))
  {
    hide Flags, FromService, MatchPtr, KnownAnswer;
    if n > 0 {
      AskServicesFlags(l, q, query, server, n - 1);
      FromServiceFlags(AskServices(l, q, query, server, n - 1).0, server.services[n - 1], q, Shared(q, query),
                       Flush(query), server);
    }
  }

  lemma AskFlags(l: Lists, q: Question, query: Query, server: Server)
    requires Flags(l.answers, Flush(query)) && Flags(l.additional, Flush(query))
    ensures var m := Ask(l, q, query, server).0;
            Flags(m.answers, Flush(query)) && Flags(m.additional, Flush(query))
  {
    hide Flags, FromService, AskServices, AllocHosts, Alloc, HostItem, Meant;
    var flush := Flush(query);
    if q.qtype == TYPE_SRV || q.qtype == TYPE_TXT {
      var i := FindService(q, server, 0);
      if i >= 0 { FromServiceFlags(l, server.services[i], q, Shared(q, query), flush, server); }
    } else if q.service.Some? && q.proto.Some? {
      AskServicesFlags(l, q, query, server, |server.services|);
    } else if IsAddress(q.qtype) {
      AddressFlags(l.answers, None, HostItem(q.host, server), flush);
    } else if q.qtype == TYPE_ANY {
      AddressFlags(l.answers, None, HostItem(Some(server.hostname), server), flush);
      var own := if server.hostname == [] then l.answers
                 else AllocHost(l.answers, HostItem(Some(server.hostname), server), flush);
      AllocHostsFlags(own, server.hosts, 0, flush);
    } else {
      AllocFlags(l.answers, q.qtype, None, NoHost, flush, flush);
    }
  }

  lemma {:induction false} AfterFlags(query: Query, server: Server, n: nat)
    requires n <= |query.questions|
    ensures var l := After(query, server, n).lists;
            Flags(l.answers, Flush(query)) && Flags(l.additional, Flush(query))
  {
    hide Flags, Ask, PassedOver;
    if n > 0 {
      AfterFlags(query, server, n - 1);
      AskFlags(After(query, server, n - 1).lists, query.questions[n - 1], query, server);
    } else {
      NoFlags(Flush(query));
    }
  }

  lemma NoFlags(flush: bool)
    ensures Flags([], flush)
  {
  }

  // ---------------------------------------------------------------- what is sent along

  /** Address records name a host of service `s`, the other records along with it none. */
  predicate GoesAlong(t: nat, h: HostRef, s: Service, server: Server) {
    if IsAddress(t) then IsHostOf(h, s.hostname, server) else (t == TYPE_SRV || t == TYPE_TXT) && h == NoHost
  }

  /** A record in the additional section goes along with a PTR or SRV answer of its service. */
  predicate Justified(l: Lists, t: nat, x: Option<nat>, h: HostRef, server: Server) {
    && x.Some? && (exists k :: 0 <= k < |server.services| && server.services[k].id == x.value
                               && GoesAlong(t, h, server.services[k], server))
    && (Has(l.answers, TYPE_PTR, x, NoHost) || (IsAddress(t) && Has(l.answers, TYPE_SRV, x, NoHost)))
  }

  ghost predicate AllJustified(l: Lists, server: Server) {
    forall t, x, h :: Has(l.additional, t, x, h) ==> Justified(l, t, x, h, server)
  }

  lemma JustifiedMono(l: Lists, m: Lists, t: nat, x: Option<nat>, h: HostRef, server: Server)
    requires Justified(l, t, x, h, server) && l.answers <= m.answers
    ensures Justified(m, t, x, h, server)
  {
    hide GoesAlong;
    if Has(l.answers, TYPE_PTR, x, NoHost) { HasMono(l.answers, m.answers, TYPE_PTR, x, NoHost); }
    else { HasMono(l.answers, m.answers, TYPE_SRV, x, NoHost); }
  }

  /** What one service adds to the additional section. */
  lemma FromServiceAlong(l: Lists, s: Service, q: Question, shared: bool, flush: bool, server: Server,
                         t: nat, x: Option<nat>, h: HostRef)
    requires Has(FromService(l, s, q, shared, flush, server).additional, t, x, h) && !Has(l.additional, t, x, h)
    ensures x == Some(s.id) && GoesAlong(t, h, s, server)
    ensures q.qtype == TYPE_PTR || q.qtype == TYPE_ANY || (q.qtype == TYPE_SRV && IsAddress(t))
  {
    var host := HostItem(s.hostname, server);
    HostItemIs(s.hostname, server, host);
    hide HostItem, IsHostOf;
    var srv := Alloc(l.additional, TYPE_SRV, Some(s.id), NoHost, flush);
    var txt := Alloc(srv, TYPE_TXT, Some(s.id), NoHost, flush);
    AllocHas(l.additional, TYPE_SRV, Some(s.id), NoHost, flush, t, x, h);
    AllocHas(srv, TYPE_TXT, Some(s.id), NoHost, flush, t, x, h);
    AddressesAre(txt, Some(s.id), host, flush, t, x, h);
    AddressesAre(l.additional, Some(s.id), host, flush, t, x, h);
    hide Has, Alloc;
  }

  lemma AddressesAre(l: seq<Answer>, service: Option<nat>, host: HostRef, flush: bool,
                     t: nat, x: Option<nat>, h: HostRef)
    ensures Has(Alloc(Alloc(l, TYPE_A, service, host, flush), TYPE_AAAA, service, host, flush), t, x, h) ==
            (Has(l, t, x, h) || (IsAddress(t) && x == service && h == host))
  {
    AllocHas(l, TYPE_A, service, host, flush, t, x, h);
    AllocHas(Alloc(l, TYPE_A, service, host, flush), TYPE_AAAA, service, host, flush, t, x, h);
  }

  lemma FromServiceJustified(l: Lists, k: nat, q: Question, shared: bool, flush: bool, server: Server)
    requires k < |server.services| && AllJustified(l, server)
    ensures AllJustified(FromService(l, server.services[k], q, shared, flush, server), server)
  {
    var s := server.services[k];
    var m := FromService(l, s, q, shared, flush, server);
    FromServiceGrows(l, s, q, shared, flush, server);
    FromServiceAdds(l, s, q, shared, flush, server, TYPE_PTR);
    FromServiceAdds(l, s, q, shared, flush, server, TYPE_SRV);
    hide Has, FromService, GoesAlong;
    forall t, x, h | Has(m.additional, t, x, h) ensures Justified(m, t, x, h, server) {
      if Has(l.additional, t, x, h) { JustifiedMono(l, m, t, x, h, server); }
      else { FromServiceAlong(l, s, q, shared, flush, server, t, x, h); }
    }
  }

  lemma {:induction false} AskServicesJustified(l: Lists, q: Question, query: Query, server: Server, n: nat)
    requires n <= |server.services| && AllJustified(l, server)
    ensures AllJustified(AskServices(l, q, query, server, n).0, server)
  {
    hide AllJustified, FromService, MatchPtr, KnownAnswer;
    if n > 0 {
      AskServicesJustified(l, q, query, server, n - 1);
      FromServiceJustified(AskServices(l, q, query, server, n - 1).0, n - 1, q, Shared(q, query), Flush(query),
                           server);
    }
  }

  lemma ApartJustified(l: Lists, m: Lists, server: Server)
    requires l.answers <= m.answers && m.additional == l.additional && AllJustified(l, server)
    ensures AllJustified(m, server)
  {
    hide Justified, Has;
    forall t, x, h | Has(m.additional, t, x, h) ensures Justified(m, t, x, h, server) {
      JustifiedMono(l, m, t, x, h, server);
    }
  }

  lemma AskJustified(l: Lists, q: Question, query: Query, server: Server)
    requires AllJustified(l, server)
    ensures AllJustified(Ask(l, q, query, server).0, server)
  {
    hide AllJustified, FromService, AskServices, AllocHost, AnyHosts, Alloc, HostItem, Meant, Apart;
    var flush, m := Flush(query), Ask(l, q, query, server).0;
    if q.qtype == TYPE_SRV || q.qtype == TYPE_TXT {
      var i := FindService(q, server, 0);
      if i >= 0 { FromServiceJustified(l, i, q, Shared(q, query), flush, server); }
    } else if q.service.Some? && q.proto.Some? {
      AskServicesJustified(l, q, query, server, |server.services|);
    } else {
      if IsAddress(q.qtype) { AllocHostApart(l, HostItem(q.host, server), flush); }
      else if q.qtype == TYPE_ANY { AnyApart(l, server, flush); }
      else { AllocApart(l, q.qtype, NoHost, flush); }
      assert Apart(l, m);
      ApartGrows(l, m);
      ApartJustified(l, m, server);
    }
  }

  lemma ApartGrows(l: Lists, m: Lists)
    requires Apart(l, m)
    ensures l.answers <= m.answers && m.additional == l.additional
  {
  }

  lemma {:induction false} AfterJustified(query: Query, server: Server, n: nat)
    requires n <= |query.questions|
    ensures AllJustified(After(query, server, n).lists, server)
  {
    hide AllJustified, Ask, PassedOver, Echo;
    if n > 0 {
      AfterJustified(query, server, n - 1);
      var p, q := After(query, server, n - 1), query.questions[n - 1];
      AskJustified(p.lists, q, query, server);
      EchoJustified(Ask(p.lists, q, query, server).0, q, query, server);
    } else {
      NoneJustified(server);
    }
  }

  lemma EchoJustified(l: Lists, q: Question, query: Query, server: Server)
    requires AllJustified(l, server)
    ensures AllJustified(Echo(l, q, query), server)
  {
    hide Justified, Has;
    forall t, x, h | Has(l.additional, t, x, h) ensures Justified(Echo(l, q, query), t, x, h, server) {
      JustifiedMono(l, Echo(l, q, query), t, x, h, server);
    }
  }

  lemma NoneJustified(server: Server)
    ensures AllJustified(Lists([], [], []), server)
  {
  }

  // ---------------------------------------------------------------- where addresses go

  /** Both address records of the host of service `s` are in the additional section. */
  ghost predicate AddressesAlong(l: Lists, s: Service, server: Server) {
    exists h :: IsHostOf(h, s.hostname, server)
                && Has(l.additional, TYPE_A, Some(s.id), h) && Has(l.additional, TYPE_AAAA, Some(s.id), h)
  }

  /** Every SRV answer has the addresses along; addresses of a service are answers only for a probe, and own ones. */
  ghost predicate Placed(l: Lists, query: Query, server: Server) {
    && (forall k :: 0 <= k < |server.services| && Has(l.answers, TYPE_SRV, Some(server.services[k].id), NoHost) ==>
          AddressesAlong(l, server.services[k], server))
    && (forall t, id: nat, h :: IsAddress(t) && Has(l.answers, t, Some(id), h) ==> query.probe && h == SelfHost)
  }

  lemma AlongMono(l: Lists, m: Lists, s: Service, server: Server)
    requires AddressesAlong(l, s, server) && l.additional <= m.additional
    ensures AddressesAlong(m, s, server)
  {
    hide IsHostOf;
    var h :| IsHostOf(h, s.hostname, server)
             && Has(l.additional, TYPE_A, Some(s.id), h) && Has(l.additional, TYPE_AAAA, Some(s.id), h);
    HasMono(l.additional, m.additional, TYPE_A, Some(s.id), h);
    HasMono(l.additional, m.additional, TYPE_AAAA, Some(s.id), h);
  }

  lemma SrvAlong(l: Lists, s: Service, q: Question, shared: bool, flush: bool, server: Server)
    requires q.qtype == TYPE_SRV
    ensures AddressesAlong(FromService(l, s, q, shared, flush, server), s, server)
  {
    var host := HostItem(s.hostname, server);
    HostItemIs(s.hostname, server, host);
    hide HostItem, IsHostOf;
    AddressesAre(l.additional, Some(s.id), host, flush, TYPE_A, Some(s.id), host);
    AddressesAre(l.additional, Some(s.id), host, flush, TYPE_AAAA, Some(s.id), host);
    hide Alloc, Has;
  }

  lemma OwnOnly(l: Lists, s: Service, q: Question, shared: bool, flush: bool, server: Server,
                t: nat, x: Option<nat>, h: HostRef)
    requires IsAddress(t) && Has(FromService(l, s, q, shared, flush, server).answers, t, x, h)
    requires !Has(l.answers, t, x, h)
    ensures !shared && h == SelfHost
  {
    var host := HostItem(s.hostname, server);
    hide HostItem;
    var first := if q.qtype == TYPE_ANY then TYPE_PTR else q.qtype;
    var f := flush && first != TYPE_PTR && first != TYPE_SDPTR;
    AllocHas(l.answers, first, Some(s.id), NoHost, f, t, x, h);
    AddressesAre(Alloc(l.answers, first, Some(s.id), NoHost, f), Some(s.id), host, flush, t, x, h);
    hide Has, Alloc;
  }

  lemma FromServicePlaced(l: Lists, j: nat, q: Question, query: Query, server: Server)
    requires j < |server.services| && Distinct(server) && Placed(l, query, server)
    ensures Placed(FromService(l, server.services[j], q, Shared(q, query), Flush(query), server), query, server)
  {
    var s, shared, flush := server.services[j], Shared(q, query), Flush(query);
    var m := FromService(l, s, q, shared, flush, server);
    FromServiceGrows(l, s, q, shared, flush, server);
    FromServiceAdds(l, s, q, shared, flush, server, TYPE_SRV);
    hide Has, FromService, AddressesAlong;
    forall k | 0 <= k < |server.services| && Has(m.answers, TYPE_SRV, Some(server.services[k].id), NoHost)
      ensures AddressesAlong(m, server.services[k], server)
    {
      var x := server.services[k];
      if Has(l.answers, TYPE_SRV, Some(x.id), NoHost) { AlongMono(l, m, x, server); }
      else { SrvAlong(l, s, q, shared, flush, server); }
    }
    forall t, id: nat, h | IsAddress(t) && Has(m.answers, t, Some(id), h) ensures query.probe && h == SelfHost {
      if !Has(l.answers, t, Some(id), h) { OwnOnly(l, s, q, shared, flush, server, t, Some(id), h); }
    }
  }

  lemma {:induction false} AskServicesPlaced(l: Lists, q: Question, query: Query, server: Server, n: nat)
    requires n <= |server.services| && Distinct(server) && Placed(l, query, server)
    ensures Placed(AskServices(l, q, query, server, n).0, query, server)
  {
    hide Placed, FromService, MatchPtr, KnownAnswer;
    if n > 0 {
      AskServicesPlaced(l, q, query, server, n - 1);
      FromServicePlaced(AskServices(l, q, query, server, n - 1).0, n - 1, q, query, server);
    }
  }

  lemma ApartPlaced(l: Lists, m: Lists, query: Query, server: Server)
    requires Apart(l, m) && Placed(l, query, server)
    ensures Placed(m, query, server)
  {
    hide Has, AddressesAlong;
    forall k | 0 <= k < |server.services| && Has(m.answers, TYPE_SRV, Some(server.services[k].id), NoHost)
      ensures AddressesAlong(m, server.services[k], server)
    {
      AlongMono(l, m, server.services[k], server);
    }
  }

  lemma AskPlaced(l: Lists, q: Question, query: Query, server: Server)
    requires Placed(l, query, server) && Distinct(server)
    ensures Placed(Ask(l, q, query, server).0, query, server)
  {
    hide Placed, FromService, AskServices, AllocHost, AnyHosts, Alloc, HostItem, Meant, Apart;
    var flush, m := Flush(query), Ask(l, q, query, server).0;
    if q.qtype == TYPE_SRV || q.qtype == TYPE_TXT {
      var i := FindService(q, server, 0);
      if i >= 0 { FromServicePlaced(l, i, q, query, server); }
    } else if q.service.Some? && q.proto.Some? {
      AskServicesPlaced(l, q, query, server, |server.services|);
    } else {
      if IsAddress(q.qtype) { AllocHostApart(l, HostItem(q.host, server), flush); }
      else if q.qtype == TYPE_ANY { AnyApart(l, server, flush); }
      else { AllocApart(l, q.qtype, NoHost, flush); }
      ApartPlaced(l, m, query, server);
    }
  }

  lemma {:induction false} AfterPlaced(query: Query, server: Server, n: nat)
    requires n <= |query.questions| && Distinct(server)
    ensures Placed(After(query, server, n).lists, query, server)
  {
    hide Placed, Ask, PassedOver, Echo;
    if n > 0 {
      AfterPlaced(query, server, n - 1);
      var p, q := After(query, server, n - 1), query.questions[n - 1];
      AskPlaced(p.lists, q, query, server);
      EchoPlaced(Ask(p.lists, q, query, server).0, q, query, server);
    } else {
      NonePlaced(query, server);
    }
  }

  lemma EchoPlaced(l: Lists, q: Question, query: Query, server: Server)
    requires Placed(l, query, server)
    ensures Placed(Echo(l, q, query), query, server)
  {
    hide Has, AddressesAlong;
    forall k | 0 <= k < |server.services| && Has(l.answers, TYPE_SRV, Some(server.services[k].id), NoHost)
      ensures AddressesAlong(Echo(l, q, query), server.services[k], server)
    {
      AlongMono(l, Echo(l, q, query), server.services[k], server);
    }
  }

  lemma NonePlaced(query: Query, server: Server)
    ensures Placed(Lists([], [], []), query, server)
  {
  }

  // ---------------------------------------------------------------- the reply as a whole

  /** The questions of the kinds that are repeated for one-shot queriers. */
  function Repeated(qs: seq<Question>): seq<Question> {
    if qs == [] then []
    else
      var last := qs[|qs| - 1];
      Repeated(qs[..|qs| - 1]) + (if IsAddress(last.qtype) || last.qtype == TYPE_ANY then [last] else [])
  }

  lemma {:induction false} AskServicesEchoes(l: Lists, q: Question, query: Query, server: Server, n: nat)
    requires n <= |server.services|
    ensures AskServices(l, q, query, server, n).0.echoed == l.echoed
  {
    hide MatchPtr, KnownAnswer, Alloc, HostItem;
    if n > 0 { AskServicesEchoes(l, q, query, server, n - 1); }
  }

  lemma AskEchoes(l: Lists, q: Question, query: Query, server: Server)
    ensures Ask(l, q, query, server).0.echoed == l.echoed
  {
    hide AskServices, AllocHost, AnyHosts, Alloc, HostItem, Meant;
    AskServicesEchoes(l, q, query, server, |server.services|);
  }

  /** A question among the first `n` that is not passed over asks for a unicast reply. */
  predicate UnicastAsked(query: Query, server: Server, n: nat)
    requires n <= |query.questions|
  {
    exists i :: 0 <= i < n && query.questions[i].unicast && !PassedOver(query.questions[i], server)
  }

  lemma {:induction false} AfterRest(query: Query, server: Server, n: nat)
    requires n <= |query.questions|
    ensures var p := After(query, server, n);
            && p.lists.echoed == (if Flush(query) then [] else Repeated(query.questions[..n]))
            && p.unicast == UnicastAsked(query, server, n)
            && (n > 0 ==> p.shared == Shared(query.questions[n - 1], query))
  {
    hide Ask, PassedOver;
    if n > 0 {
      AfterRest(query, server, n - 1);
      var p, q := After(query, server, n - 1), query.questions[n - 1];
      AskEchoes(p.lists, q, query, server);
      assert query.questions[..n][..n - 1] == query.questions[..n - 1];
      if PassedOver(q, server) { PassedOverType(q, server); }
    }
  }

  lemma PassedOverType(q: Question, server: Server)
    requires PassedOver(q, server)
    ensures !IsAddress(q.qtype) && q.qtype != TYPE_ANY
  {
  }

  /**
   The reply besides its answers. One-shot queriers, who do not ask from the service port, get the
   questions for addresses and for anything repeated in order, and their reply to themselves, without
   cache flushes; others get it to themselves if a question asks for that. Whether it waits is up to the
   last question. What is in the additional section goes along with a PTR or SRV answer.
   */
  lemma RestOfReply(query: Query, server: Server)
    requires ReplyTo(query, server).Reply? && Distinct(server)
    ensures var r, n, oneShot := ReplyTo(query, server), |query.questions|, query.srcPort != 5353;
            && n > 0 && r.lists.echoed == (if oneShot then Repeated(query.questions) else [])
            && r.toSource == (oneShot || UnicastAsked(query, server, n))
            && r.shared == (!query.probe || query.questions[n - 1].qtype in {TYPE_PTR, TYPE_SDPTR})
            && Flags(r.lists.answers, !oneShot) && Flags(r.lists.additional, !oneShot)
            && AllJustified(r.lists, server) && Placed(r.lists, query, server)
  {
    hide After, Repeated, Flags, AllJustified, Placed;
    AfterPlaced(query, server, |query.questions|);
    var n := |query.questions|;
    assert query.questions[..n] == query.questions;
    AfterRest(query, server, n);
    AfterFlags(query, server, n);
    AfterJustified(query, server, n);
  }
}
