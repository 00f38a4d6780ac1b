/**
 What the parser makes of the known answers of a received query, before the reply is built: it
 strikes the question a known PTR record belongs to, whatever its lifetime.
 */
module Received {
  import opened Bytes
  import opened Txt
  import opened Answers
  import opened AnswerRules
  import opened Wire

  /** The service a known PTR record names: the instance, or the type if it names no instance. */
  function Found(r: Known, server: Server): int {
    FindService(Question(TYPE_PTR, false, false, r.host, r.service, r.proto), server, 0)
  }

  /** `_mdns_question_matches` for PTR: a service without instance name takes any question of its type. */
  predicate Struck(q: Question, s: Service) {
    && q.qtype == TYPE_PTR && q.service.Some? && q.proto.Some?
    && CaseEq(s.service, q.service.value) && CaseEq(s.proto, q.proto.value)
    && (s.instance.None? || (q.host.Some? && CaseEq(s.instance.value, q.host.value)))
  }

  /** `_mdns_remove_parsed_question` */
  function Strike(qs: seq<Question>, s: Service): seq<Question> {
    if qs == [] then []
    else if Struck(qs[0], s) then qs[1..]
    else [qs[0]] + Strike(qs[1..], s)
  }

  /** The questions left after the first `n` records. */
  function LeftAfter(qs: seq<Question>, records: seq<Known>, n: nat, server: Server): seq<Question>
    requires n <= |records|
  {
    if n == 0 then qs
    else
      var left := LeftAfter(qs, records, n - 1, server);
      var i := Found(records[n - 1], server);
      if i == -1 then left else Strike(left, server.services[i])
  }

  /** The query as the reply is built from it; the questions of a probe all stay. */
  function Parsed(query: Query, server: Server): Query {
    if query.probe then query
    else query.(questions := LeftAfter(query.questions, query.records, |query.records|, server))
  }

  // ---------------------------------------------------------------- services with instance names

  /** The PTR questions ask for a service type, not for an instance. */
  predicate Browses(qs: seq<Question>) {
    forall i :: 0 <= i < |qs| && qs[i].qtype == TYPE_PTR ==> qs[i].host.None?
  }

  lemma {:induction false} NothingStruck(qs: seq<Question>, s: Service)
    requires Browses(qs) && s.instance.Some?
    ensures Strike(qs, s) == qs
  {
    if qs != [] {
      assert !Struck(qs[0], s);
      forall i | 0 <= i < |qs[1..]| && qs[1..][i].qtype == TYPE_PTR ensures qs[1..][i].host.None? {
        assert qs[1..][i] == qs[i + 1];
      }
      NothingStruck(qs[1..], s);
    }
  }

  lemma {:induction false} AllLeft(qs: seq<Question>, records: seq<Known>, n: nat, server: Server)
    requires n <= |records| && Browses(qs)
    requires forall k :: 0 <= k < |server.services| ==> Named(server.services[k])
    ensures LeftAfter(qs, records, n, server) == qs
  {
    hide FindService, Browses;
    if n > 0 {
      AllLeft(qs, records, n - 1, server);
      var i := Found(records[n - 1], server);
      if i >= 0 {
        assert Named(server.services[i]);
        NothingStruck(qs, server.services[i]);
      }
    }
  }

  /**
   The rule for the query as it was received: when all services have instance names of their own and
   PTR questions ask for types, the services whose PTR record is in the reply are exactly those that a
   question asks for and that no known answer spares.
   */
  lemma ReceivedFollowsTheRule(query: Query, server: Server, id: nat)
    requires Distinct(server) && server.hostname != [] && Browses(query.questions)
    requires forall k :: 0 <= k < |server.services| ==> Named(server.services[k])
    requires forall i :: 0 <= i < |query.records| ==> 2 * query.records[i].ttl != LONG_TTL
    ensures var reply := ReplyTo(Parsed(query, server), server);
            (reply.Reply? && Has(reply.lists.answers, TYPE_PTR, Some(id), NoHost))
              == AskedFor(query, id, server, |query.questions|)
  {
    hide ReplyTo, AskedFor, Has, Browses;
    AllLeft(query.questions, query.records, |query.records|, server);
    ReplyFollowsTheRule(query, server, id);
  }

  // ---------------------------------------------------------------- services without

  /** The record names a service without instance name, and the question asks for its type. */
  predicate Silences(r: Known, q: Question, server: Server) {
    var i := Found(r, server);
    i >= 0 && Struck(q, server.services[i])
  }

  lemma StrikeOne(q: Question, s: Service)
    ensures Strike([q], s) == if Struck(q, s) then [] else [q]
  {
    assert [q][1..] == [];
  }

  lemma {:induction false} OneLeft(q: Question, records: seq<Known>, n: nat, server: Server)
    requires n <= |records|
    ensures LeftAfter([q], records, n, server) ==
            if exists i :: 0 <= i < n && Silences(records[i], q, server) then [] else [q]
  {
    hide FindService, Strike, Struck;
    if n > 0 {
      OneLeft(q, records, n - 1, server);
      var i := Found(records[n - 1], server);
      if i >= 0 {
        StrikeOne(q, server.services[i]);
        StrikeNone(server.services[i]);
      }
    }
  }

  lemma StrikeNone(s: Service)
    ensures Strike([], s) == []
  {
  }

  /**
   A lone question that is no probe is passed on to the reply if and only if no known record silences
   it; else there is no reply.
   */
  lemma OneIsPassedOn(query: Query, server: Server, q: Question)
    requires query.questions == [q] && !query.probe
    ensures Parsed(query, server) == query || ReplyTo(Parsed(query, server), server) == NoReply
    ensures Parsed(query, server) == query <==>
            forall i :: 0 <= i < |query.records| ==> !Silences(query.records[i], q, server)
  {
    hide LeftAfter, Silences;
    OneLeft(q, query.records, |query.records|, server);
    hide ReplyTo;
    if Parsed(query, server) != query { NoneAsked(Parsed(query, server), server); }
  }

  lemma NoneAsked(query: Query, server: Server)
    requires query.questions == []
    ensures ReplyTo(query, server) == NoReply
  {
  }

  /** A question for a service type with one known record. */
  function Browse(service: text, proto: text, known: Known): Query {
    Query([Question(TYPE_PTR, false, false, None, Some(service), Some(proto))], [known], SERVICE_PORT, false)
  }

  lemma FoundFirst(r: Known, s: Service, server: Server)
    requires |server.services| > 0 && server.services[0] == s && s.instance.None?
    requires r == PtrOf(s, server).(ttl := r.ttl)
    ensures Found(r, server) == 0
  {
    CaseEqSelf(s.service);
    CaseEqSelf(s.proto);
    CaseEqSelf(InstanceName(s, server));
  }

  lemma KnownSilences(r: Known, s: Service, server: Server)
    requires |server.services| > 0 && server.services[0] == s && s.instance.None?
    requires r == PtrOf(s, server).(ttl := r.ttl)
    ensures ReplyTo(Parsed(Browse(s.service, s.proto, r), server), server) == NoReply
  {
    FoundFirst(r, s, server);
    CaseEqSelf(s.service);
    CaseEqSelf(s.proto);
    var query := Browse(s.service, s.proto, r);
    assert Silences(query.records[0], query.questions[0], server);
    hide Silences, ReplyTo, Parsed;
    OneIsPassedOn(query, server, query.questions[0]);
  }

  /**
   Where the rule fails on receipt: a service without instance name is not answered for although the
   querier's record of it has run out, or nearly so.
   */
  lemma StaleAnswerSilences(s: Service, server: Server, ttl: nat)
    requires server.services == [s] && server.hostname != [] && s.instance.None? && s.hostname.Some?
    requires 2 * ttl < LONG_TTL
    ensures var query := Browse(s.service, s.proto, PtrOf(s, server).(ttl := ttl));
            AskedFor(query, s.id, server, 1) && ReplyTo(Parsed(query, server), server) == NoReply
  {
    var query := Browse(s.service, s.proto, PtrOf(s, server).(ttl := ttl));
    KnownSilences(query.records[0], s, server);
    CaseEqSelf(s.service);
    CaseEqSelf(s.proto);
    assert AskedBy(query, 0, 0, s.id, server);
  }

  /** A known answer for such a service also keeps every other service of its type from being answered for. */
  lemma OtherServiceSilenced(s: Service, t: Service, server: Server)
    requires server.services == [s, t] && server.hostname != [] && s.instance.None?
    requires t.hostname.Some? && CaseEq(t.service, s.service) && CaseEq(t.proto, s.proto)
    requires !CaseEq(InstanceName(t, server), InstanceName(s, server))
    ensures var query := Browse(s.service, s.proto, PtrOf(s, server));
            AskedFor(query, t.id, server, 1) && ReplyTo(Parsed(query, server), server) == NoReply
  {
    var query := Browse(s.service, s.proto, PtrOf(s, server));
    KnownSilences(query.records[0], s, server);
    assert AskedBy(query, 0, 1, t.id, server);
  }
}
