/**
 What probes ask (section 8.1 of RFC 6762): a question for every service that is probed for, and for the
 host names if addresses are; and what becomes of the questions when a service is removed meanwhile.
 */
module ProbeQuestions {
  import opened Bytes
  import opened Lists
  import opened Txt
  import opened Answers
  import opened TxQueue
  import opened Responder
  import opened Protocol
  import opened ProbeSafety
  import opened ServiceRemoval
  import opened ResponderRuns
  import opened ReplyContents
  import Announcing
  import opened Wire

  // ---------------------------------------------------------------- a probe as it is made

  /** No two questions have one subject. */
  predicate OnceEach(qs: seq<OutQuestion>) {
    forall i, j :: 0 <= i < j < |qs| ==> qs[i].subject != qs[j].subject
  }

  /** The subject is one of the first `n` services. */
  predicate IsService(x: Subject, ids: seq<nat>, n: nat)
    requires n <= |ids|
  {
    x.OfService? && exists i :: 0 <= i < n && ids[i] == x.id
  }

  /** The subject is the host name of service `id`, as far as it has one. */
  predicate IsHostName(st: State, x: Subject, id: nat)
    requires id < |st.heap|
  {
    x == OfHost(if st.heap[id].hostname.Some? then Some(id) else None)
  }

  /** The own name, or the host name of one of the first `n` services. */
  predicate IsName(st: State, x: Subject, ids: seq<nat>, n: nat)
    requires n <= |ids| && InHeap(st, ids)
  {
    (x == OwnName && st.hostname != []) || exists i :: 0 <= i < n && IsHostName(st, x, ids[i])
  }

  lemma AskedMore(qs: seq<OutQuestion>, q: OutQuestion, x: Subject)
    ensures Asked(qs + [q], x) == (Asked(qs, x) || x == q.subject)
  {
    var r := qs + [q];
    if Asked(qs, x) {
      var i :| 0 <= i < |qs| && qs[i].subject == x;
      assert r[i].subject == x;
    }
    if x == q.subject { assert r[|qs|].subject == x; }
  }

  lemma {:induction false} ProbeServicesAsk(ids: seq<nat>, first: bool, n: nat, x: Subject)
    requires n <= |ids|
    ensures var qs := ProbeServices(ids, first, n).questions; Asked(qs, x) == IsService(x, ids, n) && OnceEach(qs)
  {
    if n > 0 {
      ProbeServicesAsk(ids, first, n - 1, x);
      ProbeServicesAsk(ids, first, n - 1, OfService(ids[n - 1]));
      var s, y := ProbeServices(ids, first, n - 1), OfService(ids[n - 1]);
      AskedMore(s.questions, OutQuestion(y, first), x);
      ServiceMore(x, ids, n);
      hide Alloc, IsService;
    }
  }

  lemma ServiceMore(x: Subject, ids: seq<nat>, n: nat)
    requires 0 < n <= |ids|
    ensures IsService(x, ids, n) == (IsService(x, ids, n - 1) || x == OfService(ids[n - 1]))
  {
    if IsService(x, ids, n - 1) { var i :| 0 <= i < n - 1 && ids[i] == x.id; }
  }

  lemma {:induction false} HostQuestionsAsk(st: State, qs: seq<OutQuestion>, ids: seq<nat>, first: bool, n: nat,
                                            x: Subject)
    requires n <= |ids| && InHeap(st, ids) && OnceEach(qs)
    ensures var r := HostQuestions(st, qs, ids, first, n);
            Asked(r, x) == (Asked(qs, x) || IsName(st, x, ids, n)) && OnceEach(r)
  {
    hide IsName, OnceEach, Asked;
    if n > 0 {
      HostQuestionsAsk(st, qs, ids, first, n - 1, x);
      var r := HostQuestions(st, qs, ids, first, n - 1);
      AddQuestionAsks(r, HostSubject(st, ids[n - 1]), first, x);
      NameMore(st, x, ids, n);
    } else {
      AddQuestionAsks(qs, OwnName, first, x);
      FirstName(st, x, ids);
    }
  }

  lemma AddQuestionAsks(qs: seq<OutQuestion>, y: Subject, unicast: bool, x: Subject)
    requires OnceEach(qs)
    ensures var r := AddQuestion(qs, y, unicast); Asked(r, x) == (Asked(qs, x) || x == y) && OnceEach(r)
  {
    AskedMore(qs, OutQuestion(y, unicast), x);
  }

  lemma NameMore(st: State, x: Subject, ids: seq<nat>, n: nat)
    requires 0 < n <= |ids| && InHeap(st, ids)
    ensures IsName(st, x, ids, n) == (IsName(st, x, ids, n - 1) || x == HostSubject(st, ids[n - 1]))
  {
    assert IsHostName(st, x, ids[n - 1]) == (x == HostSubject(st, ids[n - 1]));
    hide IsHostName;
    if i :| 0 <= i < n - 1 && IsHostName(st, x, ids[i]) { assert IsName(st, x, ids, n); }
  }

  lemma FirstName(st: State, x: Subject, ids: seq<nat>)
    requires InHeap(st, ids)
    ensures IsName(st, x, ids, 0) == (x == OwnName && st.hostname != [])
  {
  }

  /**
   A probe asks about every service it is for, and if addresses are probed for about the own name and the
   host names of the services; about nothing else, and about nothing twice.
   */
  lemma ProbeAsks(st: State, ids: seq<nat>, first: bool, ip: bool, x: Subject)
    requires InHeap(st, ids)
    ensures var qs := ProbeSections(st, ids, first, ip).questions;
            && Asked(qs, x) == (IsService(x, ids, |ids|) || (ip && IsName(st, x, ids, |ids|)))
            && OnceEach(qs) && AllUnicast(qs, first)
  {
    ProbeServicesAsk(ids, first, |ids|, x);
    HostQuestionsAsk(st, ProbeServices(ids, first, |ids|).questions, ids, first, |ids|, x);
    ProbeIsBacked(st, ids, first, ip);
    hide IsService, IsName, Asked, OnceEach, ProbeServices, HostQuestions, Hosts;
  }

  /** It proposes an SRV record for every service, the addresses of the hosts if `ip`, and nothing else. */
  lemma ProbeProposes(st: State, ids: seq<nat>, first: bool, ip: bool, t: nat, s: Option<nat>, h: HostRef)
    requires InHeap(st, ids)
    ensures Has(ProbeSections(st, ids, first, ip).servers, t, s, h) ==
            ((t == TYPE_SRV && s.Some? && h == NoHost && IsService(OfService(s.value), ids, |ids|))
             || (ip && Announcing.IsTheHostRecord(st, ids, t, s, h)))
  {
    ProposesEach(ids, first, |ids|, t, s, h);
    if ip { Announcing.HostsHas(st, ProbeServices(ids, first, |ids|).servers, ids, false, t, s, h); }
    hide Announcing.IsTheHost, IsService, Has, ProbeServices, HostQuestions, Hosts;
  }

  lemma {:induction false} ProposesEach(ids: seq<nat>, first: bool, n: nat, t: nat, s: Option<nat>, h: HostRef)
    requires n <= |ids|
    ensures Has(ProbeServices(ids, first, n).servers, t, s, h) ==
            (t == TYPE_SRV && s.Some? && h == NoHost && IsService(OfService(s.value), ids, n))
  {
    if n > 0 {
      ProposesEach(ids, first, n - 1, t, s, h);
      var l := ProbeServices(ids, first, n - 1).servers;
      AllocHas(l, TYPE_SRV, Some(ids[n - 1]), NoHost, false, t, s, h);
      ProbeServicesAsk(ids, first, n - 1, OfService(ids[n - 1]));
      if s.Some? { ServiceMore(OfService(s.value), ids, n); }
      hide Has, IsService, Alloc, OnceEach;
    }
  }

  // ---------------------------------------------------------------- while a link probes

  /** The packet asks about exactly the services the link probes for, and about host names if it probes for them. */
  ghost predicate AsksFully(m: Packet, p: Pcb) {
    && OnceEach(m.questions) && (forall x: Subject :: Asked(m.questions, x) ==> !x.Echoed?)
    && (forall id: nat :: Asked(m.questions, OfService(id)) <==> Held(p.services, id))
    && (forall id: nat :: Proposes(m.servers, id) ==> Held(p.services, id))
    && (p.probeIp ==> Asked(m.questions, OwnName))
    && (p.probeIp ==> forall id: nat :: Held(p.services, id) ==> AsksHost(m.questions, id))
  }

  predicate AsksHost(qs: seq<OutQuestion>, id: nat) {
    Asked(qs, OfHost(Some(id))) || Asked(qs, OfHost(None))
  }

  ghost predicate AsksOn(p: Pcb, mine: seq<Packet>) {
    Probing(p) && mine != [] ==> AsksFully(mine[0], p)
  }

  ghost predicate Asking(st: State, l: nat)
    requires l < |st.pcbs|
  {
    AsksOn(st.pcbs[l], Mine(st.tx, l))
  }

  ghost predicate AllAsk(st: State) {
    forall l :: 0 <= l < |st.pcbs| ==> Asking(st, l)
  }

  lemma HeldIsService(ids: seq<nat>, id: nat)
    ensures Held(ids, id) == IsService(OfService(id), ids, |ids|)
  {
  }

  lemma NoEcho(st: State, ids: seq<nat>, x: Subject)
    requires InHeap(st, ids)
    ensures IsService(x, ids, |ids|) || IsName(st, x, ids, |ids|) ==> !x.Echoed?
  {
  }

  /** The packet a probe starts with. */
  lemma StartAsks(st: State, ids: seq<nat>, ip: bool, m: Packet, p: Pcb)
    requires InHeap(st, ids) && p.services == ids && p.probeIp == ip && st.hostname != []
    requires var s := ProbeSections(st, ids, true, ip); m.questions == s.questions && m.servers == s.servers
    ensures AsksFully(m, p)
  {
    hide ProbeSections, IsService, Asked;
    ProbeAsks(st, ids, true, ip, OwnName);
    assert ip ==> IsName(st, OwnName, ids, |ids|);
    forall x: Subject | Asked(m.questions, x) ensures !x.Echoed? {
      ProbeAsks(st, ids, true, ip, x);
      NoEcho(st, ids, x);
    }
    forall id: nat ensures Asked(m.questions, OfService(id)) <==> Held(ids, id) {
      ProbeAsks(st, ids, true, ip, OfService(id));
      HeldIsService(ids, id);
    }
    forall id: nat | Proposes(m.servers, id) ensures Held(ids, id) {
      var k :| 0 <= k < |m.servers| && m.servers[k].rtype == TYPE_SRV && m.servers[k].service == Some(id);
      ProbeProposes(st, ids, true, ip, TYPE_SRV, Some(id), m.servers[k].host);
      HeldIsService(ids, id);
    }
    forall id: nat | ip && Held(ids, id) ensures AsksHost(m.questions, id) {
      var i :| 0 <= i < |ids| && ids[i] == id;
      var x := HostSubject(st, id);
      assert IsHostName(st, x, ids[i]);
      assert IsName(st, x, ids, |ids|);
      ProbeAsks(st, ids, true, ip, x);
    }
  }

  // ---------------------------------------------------------------- steps that leave questions alone

  lemma AlikeAsks(st: State, r: State)
    requires AllAsk(st) && Alike(st.tx, r.tx) && |r.pcbs| == |st.pcbs|
    requires forall l :: 0 <= l < |st.pcbs| ==>
               !Probing(r.pcbs[l]) || r.pcbs[l] == st.pcbs[l].(failed := r.pcbs[l].failed)
    ensures AllAsk(r)
  {
    hide Mine, AsksFully, Alike;
    forall l | 0 <= l < |r.pcbs| ensures Asking(r, l) {
      assert Asking(st, l);
      AlikeMine(st.tx, r.tx, l);
      AlikeOn(st.pcbs[l], r.pcbs[l], Mine(st.tx, l), Mine(r.tx, l));
    }
  }

  lemma AlikeOn(p: Pcb, q: Pcb, mine: seq<Packet>, other: seq<Packet>)
    requires AsksOn(p, mine) && Alike(mine, other) && (!Probing(q) || q == p.(failed := q.failed))
    ensures AsksOn(q, other)
  {
    if other != [] { assert AlikePacket(mine[0], other[0]); }
  }

  lemma SameAlike(tx: seq<Packet>)
    ensures Alike(tx, tx)
  {
  }

  /** Nothing happened to the other links. */
  lemma ElsewhereAsks(st: State, r: State, l: nat)
    requires AllAsk(st) && l < |st.pcbs| && Elsewhere(st, r, l) && Asking(r, l)
    ensures AllAsk(r)
  {
    hide AsksOn, Mine, Since, Start;
    forall k | 0 <= k < |r.pcbs| ensures Asking(r, k) {
      if k != l { assert Asking(st, k); }
    }
  }

  // ---------------------------------------------------------------- starts

  lemma StartProbeAsks(st: State, l: nat, ids: seq<nat>, ip: bool, random: nat)
    requires Base(st) && l < |st.pcbs| && InHeap(st, ids) && InHeap(st, st.pcbs[l].services)
    requires Mine(st.tx, l) == [] && st.hostname != []
    ensures Asking(StartProbe(st, l, ids, ip, random), l)
  {
    hide Base, Mine, Since, Start, Insert, ProbeSections, AsksFully, Merged, Elsewhere;
    var p := st.pcbs[l];
    var all, ip := Merged(p, ids), p.probeIp || ip;
    assert InHeap(st, all) by { MergedInHeap(st, p, ids); }
    var s := ProbeSections(st, all, true, ip);
    var packet := NewPacket(st, l, false).(questions := s.questions, servers := s.servers);
    ScheduleNewOk(st, packet, FirstDelay(p, random));
    StartAsks(st, all, ip, packet.(sendAt := st.now + FirstDelay(p, random)),
              p.(state := PROBE_1, services := all, probeIp := ip, running := true));
  }

  lemma MergedInHeap(st: State, p: Pcb, ids: seq<nat>)
    requires InHeap(st, ids) && InHeap(st, p.services)
    ensures InHeap(st, Merged(p, ids))
  {
  }

  lemma InitProbeAsks(st: State, l: nat, ids: seq<nat>, ip: bool, random: nat)
    requires Base(st) && l < |st.pcbs| && InHeap(st, ids)
    ensures AllInHeap(st) && Asking(InitProbe(st, l, ids, ip, random), l)
  {
    BaseInHeap(st);
    MissingInHeap(st, ids, st.pcbs[l].services);
    DropElsewhere(st, l);
    hide Base, Mine, AsksFully, Elsewhere, StartProbe, Missing;
    if st.hostname != [] {
      var some := if Probing(st.pcbs[l]) then Missing(ids, st.pcbs[l].services) else ids;
      StartProbeAsks(Drop(st, l), l, some, ip, random);
    }
  }

  /** A start on a link that is fit for it touches no other link. */
  lemma ProbeElsewhere(st: State, l: nat, ids: seq<nat>, ip: bool, clear: bool, random: nat)
    requires Base(st) && l < |st.pcbs| && InHeap(st, ids) && NoDup(ids) && Weak(st.pcbs[l], st.hostname != [])
    requires ids != [] || ip
    ensures var s := if clear then Forget(st, l) else st;
            && Base(s) && AllInHeap(s)
            && Elsewhere(st, InitProbe(s, l, ids, ip, random), l)
  {
    hide Base, Since, Start, Mine, InitProbe, NoDup, Weak, LinkOk;
    var s := if clear then Forget(st, l) else st;
    ForgetOk(st, l);
    BaseInHeap(s);
    InitProbeOk(s, l, ids, ip, random);
    hide Forget;
    if clear { ElsewhereTwice(st, s, InitProbe(s, l, ids, ip, random), l); }
  }

  lemma {:induction false} ProbeAllAsks(st: State, ids: seq<nat>, ip: bool, clear: bool, randoms: seq<nat>, i: nat)
    requires i <= |st.pcbs| == |randoms| && Half(st, i) && InHeap(st, ids) && AllInHeap(st) && NoDup(ids)
    requires (ids != [] || ip) && AllAsk(st)
    ensures AllAsk(ProbeAll(st, ids, ip, clear, randoms, i))
    decreases |st.pcbs| - i
  {
    hide AllAsk, InitProbe, NoDup, Link, Base, Weak;
    if i < |st.pcbs| {
      ProbeOne(st, ids, ip, clear, randoms[i], i);
      var s := if clear then Forget(st, i) else st;
      var next := if st.pcbs[i].ready then InitProbe(s, i, ids, ip, randoms[i]) else st;
      if st.pcbs[i].ready {
        LinkWeak(st, i);
        ProbeElsewhere(st, i, ids, ip, clear, randoms[i]);
        InitProbeAsks(s, i, ids, ip, randoms[i]);
        ElsewhereAsks(st, next, i);
      }
      HalfInHeap(next, i + 1);
      SameHeap(st, next, ids);
      ProbeAllAsks(next, ids, ip, clear, randoms, i + 1);
    }
  }

  lemma LinkWeak(st: State, i: nat)
    requires Half(st, i) && i < |st.pcbs|
    ensures Weak(st.pcbs[i], st.hostname != [])
  {
    hide Base, Since, Start, Mine, ProbeLink;
    assert Link(st, i) || Weak(st.pcbs[i], st.hostname != []);
  }

  lemma ProbeLinkAsks(st: State, l: nat, ids: seq<nat>, ip: bool, random: nat)
    requires Inv(st) && AllAsk(st) && l < |st.pcbs| && InHeap(st, ids) && NoDup(ids) && (ids != [] || ip)
    ensures AllInHeap(st) && AllAsk(InitProbe(st, l, ids, ip, random))
  {
    InvHalf(st);
    hide Link;
    LinkWeak(st, l);
    ProbeElsewhere(st, l, ids, ip, false, random);
    InitProbeAsks(st, l, ids, ip, random);
    hide InitProbe, AllAsk, Inv, Base;
    ElsewhereAsks(st, InitProbe(st, l, ids, ip, random), l);
  }

  lemma RestartsAsk(st: State, step: Step)
    requires Inv(st) && AllAsk(st) && Sane(st) && ResponderRuns.Allowed(st, step)
    requires step.ProbeEvery? || step.Rename? || step.RenameInstance? || step.Register?
    ensures AllAsk(Next(st, step))
  {
    hide Base, Link, NoDup, AllAsk, ProbeAll;
    match step
    case ProbeEvery(ids, randoms) =>
      InvHalf(st);
      ProbeAllAsks(st, ids, false, false, randoms, 0);
    case Rename(name, randoms) =>
      RenamedOk(st, name);
      var s := Renamed(st, name);
      ClearedOk(s);
      ClearedAsk(s);
      HalfInHeap(s.(tx := []), 0);
      ListedInHeap(s.(tx := []));
      ProbeAllAsks(s.(tx := []), s.listed, true, true, randoms, 0);
    case RenameInstance(name, randoms) =>
      var s := st.(instance := Some(name));
      ListedInHeap(st);
      ListOk(st, s);
      SameAsk(st, s);
      InvHalf(s);
      NamelessOk(s, s.listed);
      var ids := Nameless(s, s.listed);
      if ids != [] { ProbeAllAsks(s, ids, false, true, randoms, 0); }
    case Register(service, randoms) =>
      var s := Registered(st, service);
      RegisteredOk(st, service);
      SameAsk(st, s);
      InvHalf(s);
      HalfInHeap(s, 0);
      assert NoDup([|st.heap|]) by { OneNoDup(|st.heap|); }
      ProbeAllAsks(s, [|st.heap|], false, false, randoms, 0);
  }

  lemma OneNoDup(id: nat)
    ensures NoDup([id])
  {
  }

  lemma ListedInHeap(st: State)
    requires Base(st)
    ensures InHeap(st, st.listed) && NoDup(st.listed)
  {
  }

  lemma ClearedAsk(st: State)
    ensures AllAsk(st.(tx := []))
  {
    var s := st.(tx := []);
    forall l | 0 <= l < |s.pcbs| ensures Asking(s, l) { assert Mine(s.tx, l) == []; }
  }

  lemma SameAsk(st: State, r: State)
    requires AllAsk(st) && r.tx == st.tx && r.pcbs == st.pcbs
    ensures AllAsk(r)
  {
    SameAlike(st.tx);
    AlikeAsks(st, r);
  }

  // ---------------------------------------------------------------- packets that go out

  /** The same subjects asked, of other addressees. */
  lemma SameSubjects(m: Packet, n: Packet, p: Pcb, q: Pcb)
    requires AsksFully(m, p) && n.servers == m.servers && q.services == p.services && q.probeIp == p.probeIp
    requires |n.questions| == |m.questions|
    requires forall k :: 0 <= k < |m.questions| ==> n.questions[k].subject == m.questions[k].subject
    ensures AsksFully(n, q)
  {
    forall x: Subject ensures Asked(n.questions, x) == Asked(m.questions, x) {
      if k :| 0 <= k < |m.questions| && m.questions[k].subject == x { assert n.questions[k].subject == x; }
      if k :| 0 <= k < |n.questions| && n.questions[k].subject == x { assert m.questions[k].subject == x; }
    }
    hide Asked, Held, Proposes;
  }

  /** The probe is scheduled again, asking the same. */
  lemma AgainAsks(st: State, id: nat)
    requires Inv(st) && AllAsk(st) && st.hand == Some(Send(id)) && st.tx != [] && st.tx[0].id == id
    requires st.tx[0].link < |st.pcbs| && PROBE_1 <= st.pcbs[st.tx[0].link].state <= PROBE_2 && st.tx[0].queued
    ensures |ExecuteSend(st, id).pcbs| == |st.pcbs| && Asking(ExecuteSend(st, id), st.tx[0].link)
  {
    hide Inv, Link, Mine, Since, Start, Elsewhere, AsksFully, Insert, Pending, IsIn, Base, ExecuteSend, Again;
    var l, s := st.tx[0].link, Departed(st);
    assert Asking(st, l);
    hide AllAsk;
    AgainIs(st, id);
    DepartedOk(st, id);
    HeadIsProbe(st, id);
    var n, p := Again(st), st.pcbs[l];
    SameSubjects(st.tx[0], n.(sendAt := s.now + 250), p, p.(state := p.state + 1));
    hide Departed;
    ScheduledAsks(s, n, 250, p.(state := p.state + 1));
  }

  lemma ScheduledAsks(st: State, m: Packet, after: nat, p: Pcb)
    requires Base(st) && m.link < |st.pcbs| && !m.queued && m.id < st.nextId && !IsIn(st.tx, m.id)
    requires var ids := Pending(st.hand, st.actions); forall i :: 0 <= i < |ids| ==> ids[i] != m.id
    requires Mine(st.tx, m.link) == [] && AsksFully(m.(sendAt := st.now + after), p)
    ensures Asking(SetPcb(Schedule(st, m, after), m.link, p), m.link)
  {
    hide Base, Mine, AsksFully, Insert, Pending, IsIn, Elsewhere;
    ScheduleOk(st, m, after);
  }

  /** The probe at the head of the list as it is scheduled again. */
  function Again(st: State): (m: Packet)
    requires st.tx != [] && st.tx[0].link < |st.pcbs|
    ensures m == st.tx[0].(queued := false, questions := m.questions) && |m.questions| == |st.tx[0].questions|
    ensures forall k :: 0 <= k < |m.questions| ==> m.questions[k].subject == st.tx[0].questions[k].subject
  {
    var m := st.tx[0].(queued := false);
    if st.pcbs[m.link].state == PROBE_1 then m.(questions := Multicast(m.questions)) else m
  }

  lemma AgainIs(st: State, id: nat)
    requires st.tx != [] && st.tx[0].id == id && st.tx[0].queued && st.tx[0].link < |st.pcbs|
    requires PROBE_1 <= st.pcbs[st.tx[0].link].state <= PROBE_2
    ensures var l := st.tx[0].link; var p := st.pcbs[l];
            ExecuteSend(st, id) == SetPcb(Schedule(Departed(st), Again(st), 250), l, p.(state := p.state + 1))
  {
    hide Insert, Multicast;
  }

  /** Any other packet leaves its link not probing. */
  lemma OtherwiseDone(st: State, id: nat)
    requires st.tx != [] && st.tx[0].id == id && st.tx[0].link < |st.pcbs|
    requires !(PROBE_1 <= st.pcbs[st.tx[0].link].state <= PROBE_2) && st.tx[0].queued
    requires var p := st.pcbs[st.tx[0].link]; p.state == OFF || PROBE_1 <= p.state <= RUNNING
    ensures |ExecuteSend(st, id).pcbs| == |st.pcbs| && !Probing(ExecuteSend(st, id).pcbs[st.tx[0].link])
  {
    hide Insert, Announced;
  }

  lemma SendAsks(st: State, id: nat)
    requires Inv(st) && AllAsk(st) && st.hand == Some(Send(id)) && st.tx != [] && st.tx[0].id == id
    ensures AllAsk(ExecuteSend(st, id))
  {
    hide Inv, Link, Mine, Since, Start, Elsewhere, AsksFully, ExecuteSend, AllAsk, Pending, IsIn, Base;
    SendElsewhere(st, id);
    DepartedOk(st, id);
    var l, r := st.tx[0].link, ExecuteSend(st, id);
    if PROBE_1 <= st.pcbs[l].state <= PROBE_2 { AgainAsks(st, id); } else { OtherwiseDone(st, id); }
    ElsewhereAsks(st, r, l);
  }

  lemma ActAsks(st: State)
    requires Inv(st) && AllAsk(st) && st.hand.Some? && (st.tx != [] ==> st.tx[0].link < |st.pcbs|)
    ensures AllAsk(if st.hand.value.Send? then ExecuteSend(st, st.hand.value.id) else st.(hand := None))
  {
    hide Inv, AllAsk;
    if st.hand.value.Send? && st.tx != [] && st.tx[0].id == st.hand.value.id { SendAsks(st, st.hand.value.id); }
    else { SameAsk(st, st.(hand := None)); }
  }

  /** A packet for a link that does not probe. */
  lemma NewPacketAsks(st: State, m: Packet, after: nat, p: Pcb)
    requires Inv(st) && AllAsk(st) && m.link < |st.pcbs| && !m.queued && m.id == st.nextId && !Probing(p)
    ensures AllAsk(SetPcb(ScheduleNew(st, m, after), m.link, p))
  {
    hide Base, Link, Mine, Since, Start, Insert;
    ScheduleNewOk(st, m, after);
    var s := ScheduleNew(st, m, after);
    SetElsewhere(s, m.link, p);
    hide AllAsk, Elsewhere;
    ElsewhereTwice(st, s, SetPcb(s, m.link, p), m.link);
    ElsewhereAsks(st, SetPcb(s, m.link, p), m.link);
  }

  lemma AnnounceAsks(st: State, l: nat, ids: seq<nat>, ip: bool, random: nat)
    requires Inv(st) && AllAsk(st) && AllInHeap(st) && l < |st.pcbs|
    requires InHeap(st, ids) && NoDup(ids) && (ids != [] || ip)
    ensures AllAsk(Announce(st, l, ids, ip, random))
  {
    var p := st.pcbs[l];
    hide Inv, AllAsk, InitProbe, AnnounceServices, Hosts, Dealloc, NoDup, InHeap, AllInHeap, Insert;
    if p.ready && Probing(p) { ProbeLinkAsks(st, l, ids, ip, random); }
    else if p.ready && Responder.Announcing(p) {
      var k, r := FirstOf(st.tx, l), Announce(st, l, ids, ip, random);
      if k < |st.tx| {
        assert r.tx == st.tx[k := r.tx[k]];
        ReplacedAlike(st.tx, k, r.tx[k]);
        AlikeAsks(st, r);
      }
    } else if p.ready && p.state == RUNNING && st.hostname != [] {
      var m := NewPacket(st, l, true).(answers := AnnounceServices([], ids, |ids|),
                                       servers := if ip then Hosts(st, [], ids, true) else []);
      AnnounceIs(st, l, ids, ip, random, m);
      hide Announce;
      NewPacketAsks(st, m, 0, p.(state := ANNOUNCE_1));
    }
  }

  lemma AnnounceIs(st: State, l: nat, ids: seq<nat>, ip: bool, random: nat, m: Packet)
    requires l < |st.pcbs| && AllInHeap(st) && InHeap(st, ids)
    requires st.pcbs[l].ready && st.pcbs[l].state == RUNNING && st.hostname != []
    requires m == NewPacket(st, l, true).(answers := AnnounceServices([], ids, |ids|),
                                          servers := if ip then Hosts(st, [], ids, true) else [])
    ensures Announce(st, l, ids, ip, random) ==
            SetPcb(ScheduleNew(st, m, 0), l, st.pcbs[l].(state := ANNOUNCE_1))
  {
    hide Insert, AnnounceServices, Hosts;
  }

  lemma ReplacedAlike(tx: seq<Packet>, k: nat, m: Packet)
    requires k < |tx| && AlikePacket(tx[k], m)
    ensures Alike(tx, tx[k := m])
  {
  }

  lemma SamePcb(st: State, s: State, l: nat)
    requires l < |s.pcbs| && s.pcbs == st.pcbs
    ensures SetPcb(s, l, st.pcbs[l]) == s
  {
  }

  lemma RespondAsks(st: State, l: nat, questions: seq<OutQuestion>, answers: seq<Answer>, additional: seq<Answer>,
                    distributed: bool, shared: bool, step: nat)
    requires Inv(st) && AllAsk(st) && l < |st.pcbs|
    ensures AllAsk(Respond(st, l, questions, answers, additional, distributed, shared, step))
  {
    var r := Respond(st, l, questions, answers, additional, distributed, shared, step);
    hide Inv, AllAsk, Insert;
    if st.pcbs[l].state > PROBE_3 && shared {
      var m := NewPacket(st, l, true).(questions := questions, answers := answers,
                                       additional := additional, distributed := distributed);
      var s := ScheduleNew(st, m, 25 + step % 4 * 25);
      assert r == s;
      hide Respond, ScheduleNew;
      NewPacketAsks(st, m, 25 + step % 4 * 25, st.pcbs[l]);
      SamePcb(st, s, l);
    } else {
      SameAsk(st, r);
    }
  }

  lemma LinkAsks(st: State, step: Step)
    requires Inv(st) && AllAsk(st) && Sane(st) && ResponderRuns.Allowed(st, step)
    requires step.Probe? || step.Announcement? || step.LinkUp? || step.LinkDown? || step.Fail?
    ensures AllAsk(Next(st, step))
  {
    hide Inv, AllAsk, InitProbe, Announce, Enable, Disable, NoDup;
    match step
    case Probe(link, ids, ip, random) => ProbeLinkAsks(st, link, ids, ip, random);
    case Announcement(link, ids, ip, random) => AnnounceAsks(st, link, ids, ip, random);
    case LinkUp(link, up, random) => EnableAsks(st, link, up, random);
    case LinkDown(link) => DisableAsks(st, link);
    case Fail(link) =>
      SameAlike(st.tx);
      AlikeAsks(st, Next(st, step));
  }

  lemma EnableAsks(st: State, l: nat, up: bool, random: nat)
    requires Inv(st) && AllAsk(st) && l < |st.pcbs| && AllInHeap(st) && InHeap(st, st.listed)
    ensures AllAsk(Enable(st, l, up, random))
  {
    var p := st.pcbs[l];
    if !p.ready && !up {
      hide Inv, AllAsk;
      SameAlike(st.tx);
      AlikeAsks(st, Enable(st, l, up, random));
    } else {
      assert Link(st, l);
      hide TxOk, ProbeLink, Since, Start, Mine, InitProbe, NoDup, AsksFully;
      var s := SetPcb(st, l, p.(ready := true));
      SetElsewhere(st, l, p.(ready := true));
      BaseSetPcb(st, l, p.(ready := true));
      ProbeElsewhere(s, l, st.listed, true, false, random);
      InitProbeAsks(s, l, st.listed, true, random);
      hide Base, Elsewhere, AllAsk;
      ElsewhereTwice(st, s, Enable(st, l, up, random), l);
      ElsewhereAsks(st, Enable(st, l, up, random), l);
    }
  }

  lemma DisableAsks(st: State, l: nat)
    requires Inv(st) && AllAsk(st) && l < |st.pcbs|
    ensures AllAsk(Disable(st, l))
  {
    hide Base, Link, Mine, Since, Start;
    var r := Disable(st, l);
    if st.pcbs[l].ready {
      DropElsewhere(st, l);
      SetElsewhere(Drop(st, l), l, r.pcbs[l]);
      hide AllAsk, Elsewhere;
      ElsewhereTwice(st, Drop(st, l), r, l);
      ElsewhereAsks(st, r, l);
    } else {
      SetElsewhere(st, l, r.pcbs[l]);
      hide AllAsk, Elsewhere;
      ElsewhereAsks(st, r, l);
    }
  }

  // ---------------------------------------------------------------- a service is removed meanwhile

  /** The first question about a service of the type of `id`, as the removal looks for it. */
  function FirstOfType(st: State, qs: seq<OutQuestion>, id: nat): (k: nat)
    requires id < |st.heap|
    ensures k <= |qs| && (k < |qs| ==> SameType(st, qs[k].subject, st.heap[id]))
    ensures forall i :: 0 <= i < k ==> !SameType(st, qs[i].subject, st.heap[id])
  {
    if qs == [] || SameType(st, qs[0].subject, st.heap[id]) then 0 else FirstOfType(st, qs[1..], id) + 1
  }

  lemma {:induction false} UnaskIs(st: State, qs: seq<OutQuestion>, id: nat)
    requires id < |st.heap|
    ensures var k := FirstOfType(st, qs, id); Unask(st, qs, id) == if k < |qs| then qs[..k] + qs[k + 1..] else qs
  {
    hide SameType;
    if qs != [] && !SameType(st, qs[0].subject, st.heap[id]) {
      UnaskIs(st, qs[1..], id);
      var k := FirstOfType(st, qs[1..], id);
      hide Unask, FirstOfType;
      if k < |qs[1..]| { TakenOut(qs, k + 1); } else { assert [qs[0]] + qs[1..] == qs; }
    }
  }

  /** Without question `k` everything else is still asked about, and once. */
  lemma AskedBut(qs: seq<OutQuestion>, k: nat, x: Subject)
    requires OnceEach(qs) && k < |qs|
    ensures var r := qs[..k] + qs[k + 1..]; Asked(r, x) == (Asked(qs, x) && x != qs[k].subject) && OnceEach(r)
  {
    var r := qs[..k] + qs[k + 1..];
    forall i | 0 <= i < |r| ensures r[i] == qs[if i < k then i else i + 1] {}
    if i :| 0 <= i < |r| && r[i].subject == x { assert qs[if i < k then i else i + 1].subject == x; }
    if i :| 0 <= i < |qs| && qs[i].subject == x && i != k { assert r[if i < k then i else i - 1].subject == x; }
  }

  /** What the questions of a packet are without the first of the type of `id`. */
  lemma UnaskAsked(st: State, qs: seq<OutQuestion>, id: nat, x: Subject)
    requires id < |st.heap| && OnceEach(qs)
    ensures var k := FirstOfType(st, qs, id);
            && OnceEach(Unask(st, qs, id))
            && Asked(Unask(st, qs, id), x) == (Asked(qs, x) && !(k < |qs| && x == qs[k].subject))
  {
    UnaskIs(st, qs, id);
    hide Unask, SameType, OnceEach, Asked;
    var k := FirstOfType(st, qs, id);
    hide FirstOfType;
    if k < |qs| { AskedBut(qs, k, x); }
  }

  /** The removal finds the question of another service first. */
  predicate Mistakes(st: State, m: Packet, p: Pcb, id: nat)
    requires id < |st.heap|
  {
    && p.ready && Probing(p) && Held(p.services, id)
    && var k := FirstOfType(st, m.questions, id); k < |m.questions| && m.questions[k].subject != OfService(id)
  }

  lemma ProposesLess(l: seq<Answer>, id: nat, x: nat)
    requires Proposes(Without(l, id), x)
    ensures Proposes(l, x) && x != id
  {
    WithoutIs(l, id);
    var r := Without(l, id);
    var k :| 0 <= k < |r| && r[k].rtype == TYPE_SRV && r[k].service == Some(x);
    assert Has(l, r[k].rtype, r[k].service, r[k].host);
    var j :| 0 <= j < |l| && l[j].rtype == r[k].rtype && l[j].service == r[k].service && l[j].host == r[k].host;
    assert r[k].service != Some(id) by { assert !Names(r, id); }
  }

  /** One packet and its link: it asks fully afterwards if and only if the right question was dropped. */
  lemma StripAsks(st: State, m: Packet, p: Pcb, id: nat)
    requires id < |st.heap| && Probing(p) && NoDup(p.services) && AsksFully(m, p)
    ensures var (n, q) := Strip(st, m, p, id);
            && (!Mistakes(st, m, p, id) && Probing(q) ==> AsksFully(n, q))
            && (Mistakes(st, m, p, id) ==> Probing(q) && !AsksFully(n, q))
  {
    var (n, q) := Strip(st, m, p, id);
    StripLink(st, m, p, id);
    StrikeIs(p.services, id);
    if !Held(p.services, id) { StrikeMissing(p.services, id); }
    StripQuestions(st, m, p, id);
    hide Strip, Strike, Unask, FirstOfType, Without, NoDup, OnceEach, Asked, Held;
    if p.ready && Held(p.services, id) {
      var k := FirstOfType(st, m.questions, id);
      OwnType(st, m.questions, id);
      forall x: Subject
        ensures Asked(n.questions, x) == (Asked(m.questions, x) && x != m.questions[k].subject) && OnceEach(n.questions)
      {
        UnaskAsked(st, m.questions, id, x);
      }
      if Mistakes(st, m, p, id) { Misses(m, n, p, q, id, m.questions[k].subject.id); }
      else if Probing(q) { DropsOwn(m, n, p, q, id); }
    } else {
      forall x: nat | Proposes(n.servers, x) ensures Held(q.services, x) { ProposesLess(m.servers, id, x); }
    }
  }

  lemma StripQuestions(st: State, m: Packet, p: Pcb, id: nat)
    requires id < |st.heap| && Probing(p)
    ensures var (n, q) := Strip(st, m, p, id);
            if p.ready && Held(p.services, id) then
              && n.questions == Unask(st, m.questions, id)
              && (if |p.services| > 1 then Probing(q) && q.services == Strike(p.services, id) else q.services == [])
            else n.questions == m.questions && q == p
  {
    hide Unask, Without, Strike;
  }

  /** A question about the service itself is of its type. */
  lemma OwnType(st: State, qs: seq<OutQuestion>, id: nat)
    requires id < |st.heap| && Asked(qs, OfService(id))
    ensures var k := FirstOfType(st, qs, id);
            k < |qs| && Asked(qs, qs[k].subject) && (qs[k].subject.OfService? || qs[k].subject.Echoed?)
  {
    var i :| 0 <= i < |qs| && qs[i].subject == OfService(id);
    assert SameType(st, qs[i].subject, st.heap[id]);
  }

  /** The service whose question was dropped is still probed for. */
  lemma Misses(m: Packet, n: Packet, p: Pcb, q: Pcb, id: nat, j: nat)
    requires AsksFully(m, p) && Held(p.services, id) && j != id && Asked(m.questions, OfService(j))
    requires if |p.services| > 1 then Probing(q) && q.services == Strike(p.services, id) else q.services == []
    requires NoDup(p.services) && !Asked(n.questions, OfService(j))
    ensures Probing(q) && !AsksFully(n, q)
  {
    assert Held(p.services, j);
    StrikeIs(p.services, id);
    var a :| 0 <= a < |p.services| && p.services[a] == id;
    var b :| 0 <= b < |p.services| && p.services[b] == j;
    hide Strike, NoDup;
    assert Held(q.services, j);
  }

  lemma DropsOwn(m: Packet, n: Packet, p: Pcb, q: Pcb, id: nat)
    requires AsksFully(m, p) && Held(p.services, id) && NoDup(p.services) && n.servers == Without(m.servers, id)
    requires q.probeIp == p.probeIp && OnceEach(n.questions)
    requires if |p.services| > 1 then q.services == Strike(p.services, id) else q.services == []
    requires forall x: Subject :: Asked(n.questions, x) == (Asked(m.questions, x) && x != OfService(id))
    ensures AsksFully(n, q)
  {
    StrikeIs(p.services, id);
    LoneIsLeft(p.services, id);
    hide Strike, NoDup, OnceEach, Asked, Without, Proposes;
    forall x: nat ensures Held(q.services, x) == (Held(p.services, x) && x != id) {}
    hide Held;
    forall x: nat | Proposes(n.servers, x) ensures Held(q.services, x) { ProposesLess(m.servers, id, x); }
  }

  lemma LoneIsLeft(ids: seq<nat>, id: nat)
    requires Held(ids, id)
    ensures |ids| <= 1 ==> forall x: nat :: Held(ids, x) == (x == id)
  {
  }

  predicate MistakesOn(st: State, l: nat, id: nat)
    requires l < |st.pcbs| && id < |st.heap|
  {
    Mine(st.tx, l) != [] && Mistakes(st, Mine(st.tx, l)[0], st.pcbs[l], id)
  }

  lemma RemovedAsking(st: State, id: nat, l: nat)
    requires id < |st.heap| && OnLinks(st.tx, |st.pcbs|) && l < |st.pcbs| && Link(st, l) && Asking(st, l)
    ensures |Removed(st, id).pcbs| == |st.pcbs|
    ensures Asking(Removed(st, id), l) <==> !MistakesOn(st, l, id)
  {
    RemovedLink(st, id, l);
    RemoveIsStrip(st, st.tx, st.pcbs, id);
    StrippedOn(st, st.tx, st.pcbs, id, l);
    FilledMine(Stripped(st, st.tx, st.pcbs, id).0, l);
    var mine, p := Mine(st.tx, l), st.pcbs[l];
    hide RemoveService, Stripped, Mine, Since, Start;
    StripOnAsks(st, mine, p, Since(st.trace, l), Start(st.trace, l), st.hostname != [], id);
    hide Link, LinkOk, Mistakes, AsksOn, StripOn;
  }

  lemma StripOnAsks(st: State, mine: seq<Packet>, p: Pcb, hist: seq<Event>, start: Option<Event>, named: bool, id: nat)
    requires id < |st.heap| && LinkOk(p, mine, hist, start, named) && AsksOn(p, mine)
    ensures var (s, q) := StripOn(st, mine, p, id);
            AsksOn(q, Keep(s, Filled)) <==> !(mine != [] && Mistakes(st, mine[0], p, id))
  {
    LinkStrip(st, mine, p, hist, start, named, id);
    hide AsksFully, Strip, Spaced, NoDup, ProbePacket, Blank;
    if !Probing(p) { SettledStrip(st, mine, p, id, named); }
    else if mine != [] {
      assert mine == [mine[0]] && mine[1..] == [];
      var (m, q) := Strip(st, mine[0], p, id);
      assert StripOn(st, mine[1..], q, id) == ([], q);
      assert [m] + [] == [m];
      OneFilled(m);
      NotReadyStrip(st, mine[0], p, id);
      StripAsks(st, mine[0], p, id);
      hide Mistakes;
    }
  }

  lemma RemovedAsk(st: State, id: nat)
    requires Inv(st) && AllAsk(st) && id < |st.heap|
    ensures OnLinks(st.tx, |st.pcbs|)
    ensures AllAsk(Removed(st, id)) <==> forall l :: 0 <= l < |st.pcbs| ==> !MistakesOn(st, l, id)
  {
    BaseOnLinks(st);
    hide Link, Removed, Base, Asking, MistakesOn;
    forall l | 0 <= l < |st.pcbs|
      ensures |Removed(st, id).pcbs| == |st.pcbs| && (Asking(Removed(st, id), l) <==> !MistakesOn(st, l, id))
    {
      RemovedAsking(st, id, l);
    }
    RemovedCount(st, id);
  }

  lemma RemovedCount(st: State, id: nat)
    requires id < |st.heap| && OnLinks(st.tx, |st.pcbs|)
    ensures |Removed(st, id).pcbs| == |st.pcbs|
  {
  }

  // ---------------------------------------------------------------- every step

  /** A service is removed while a ready link probes for it, and the question of another one is dropped in its place. */
  predicate Misasks(st: State, step: Step) {
    && step.Unregister? && step.id < |st.heap|
    && exists l :: 0 <= l < |st.pcbs| && MistakesOn(st, l, step.id)
  }

  lemma {:induction false} SameFirst(st: State, s: State, qs: seq<OutQuestion>, id: nat)
    requires id < |st.heap| && s.heap == st.heap
    ensures FirstOfType(s, qs, id) == FirstOfType(st, qs, id)
  {
    if qs != [] { SameFirst(st, s, qs[1..], id); }
  }

  lemma UnregisterAsks(st: State, id: nat)
    requires Inv(st) && AllAsk(st) && Sane(st) && id < |st.heap|
    ensures AllAsk(Next(st, Unregister(id))) <==> !Misasks(st, Unregister(id))
  {
    var s := st.(listed := Strike(st.listed, id));
    StruckOk(st, id);
    hide Inv, Strike, Removed, AllAsk, MistakesOn;
    SameAsk(st, s);
    RemovedAsk(s, id);
    forall l | 0 <= l < |st.pcbs| ensures MistakesOn(s, l, id) == MistakesOn(st, l, id) { SameMistakes(st, s, l, id); }
    UnregisterIs(st, id);
    hide Next;
  }

  lemma UnregisterIs(st: State, id: nat)
    requires Sane(st) && id < |st.heap|
    ensures Next(st, Unregister(id)) == Removed(st.(listed := Strike(st.listed, id)), id)
  {
    hide Removed, Strike;
  }

  lemma StruckOk(st: State, id: nat)
    requires Inv(st) && id < |st.heap|
    ensures Inv(st.(listed := Strike(st.listed, id)))
  {
    StrikeIs(st.listed, id);
    StruckInHeap(st, st.listed, id);
    hide Link, TxOk, NoDup, Strike;
    ListOk(st, st.(listed := Strike(st.listed, id)));
  }

  lemma SameMistakes(st: State, s: State, l: nat, id: nat)
    requires l < |st.pcbs| && id < |st.heap| && s == st.(listed := s.listed)
    ensures MistakesOn(s, l, id) == MistakesOn(st, l, id)
  {
    hide Mine;
    if Mine(st.tx, l) != [] { SameFirst(st, s, Mine(st.tx, l)[0].questions, id); }
  }

  lemma BasePairs(st: State)
    requires Base(st)
    ensures Pairs(st.tx)
  {
  }

  /** The steps that change no question of a probe. */
  lemma StillAsks(st: State, step: Step)
    requires Inv(st) && AllAsk(st) && Sane(st) && ResponderRuns.Allowed(st, step)
    requires step.Tick? || step.Timer? || step.Post? || step.Take? || step.Edit? || step.Withdraw? || step.Delegate?
             || step.Undelegate?
    ensures AllAsk(Next(st, step))
  {
    hide Link, AllAsk, Alike, NoDup, Base;
    assert Pairs(st.tx) by { BasePairs(st); }
    if step.Timer? {
      TimerIs(st, step.accepts);
      RunAlike(st.tx, st.now, step.accepts);
      hide SchedulerRun, Run;
      AlikeAsks(st, Next(st, step));
    } else if step.Withdraw? {
      RemoveAnswerAlike(st.tx, step.link, step.rtype, step.whose);
      hide RemoveAnswer;
      AlikeAsks(st, Next(st, step));
    } else {
      SameAsk(st, Next(st, step));
    }
  }

  /** A step keeps the questions complete if and only if it does not drop that of another service. */
  lemma AskingExact(st: State, step: Step)
    requires Inv(st) && AllAsk(st) && ResponderRuns.Allowed(st, step)
    ensures Sane(st) && (AllAsk(Next(st, step)) <==> !Misasks(st, step))
  {
    InvSane(st);
    hide Inv, AllAsk, InitProbe, ExecuteSend, Announce, Respond, Enable, Disable, SetPcb, Removed, NoDup;
    match step
    case Act => HeadOnLink(st); ActAsks(st);
    case Probe(_, _, _, _) | Announcement(_, _, _, _) | LinkUp(_, _, _) | LinkDown(_) | Fail(_) => LinkAsks(st, step);
    case Unregister(id) => UnregisterAsks(st, id);
    case Response(link, questions, answers, additional, distributed, shared, n) =>
      RespondAsks(st, link, questions, answers, additional, distributed, shared, n);
    case ProbeEvery(_, _) | Rename(_, _) | RenameInstance(_, _) | Register(_, _) => RestartsAsk(st, step);
    case _ => StillAsks(st, step);
  }

  /** No step of the run drops the question of another service. */
  predicate AskingRun(st: State, steps: seq<Step>) {
    steps == [] ||
    (AskingRun(st, steps[..|steps| - 1]) && !Misasks(AfterRun(st, steps[..|steps| - 1]), steps[|steps| - 1]))
  }

  /** In every such run, whatever the interleaving, each probing link's packet asks about all it probes for. */
  lemma {:induction false} EveryRunAsks(st: State, steps: seq<Step>)
    requires Inv(st) && AllAsk(st) && SafeRun(st, steps) && AskingRun(st, steps)
    ensures Inv(AfterRun(st, steps)) && AllAsk(AfterRun(st, steps))
  {
    hide Inv, Next, ResponderRuns.Allowed, Safe, Sane, AllAsk, Misasks;
    if steps != [] {
      var before, step := steps[..|steps| - 1], steps[|steps| - 1];
      EveryRunAsks(st, before);
      if ResponderRuns.Allowed(AfterRun(st, before), step) {
        StepExact(AfterRun(st, before), step);
        AskingExact(AfterRun(st, before), step);
      }
    }
  }

  lemma InitialAsks(links: nat, now: nat)
    ensures AllAsk(Initial(links, now))
  {
    InitialFields(links, now);
    hide Initial;
    ClearedAsk(Initial(links, now));
    assert Initial(links, now).(tx := []) == Initial(links, now);
  }

  // ---------------------------------------------------------------- what the three probes asked

  lemma ThirdAsks(st: State, id: nat, l: nat)
    requires Inv(st) && AllAsk(st) && st.hand == Some(Send(id)) && st.tx != [] && st.tx[0].id == id && st.tx[0].queued
    requires l == st.tx[0].link && l < |st.pcbs| && st.pcbs[l].state == PROBE_3
    ensures var hist := Since(ExecuteSend(st, id).trace, l);
            && |hist| == 3 && hist[2].Sent? && hist[2].packet == st.tx[0].(queued := false)
            && AsksFully(st.tx[0], st.pcbs[l])
  {
    hide Inv, Mine, Since, Start, ThreeProbes, Announced, Insert, AsksFully;
    LastProbe(st, id, l);
    HeadIsProbe(st, id);
    assert Asking(st, l);
    SinceMore(st.trace, Sent(l, st.now, st.tx[0].(queued := false)), l);
  }

  /** Each of the three dispatches asked about whatever the last one did. */
  lemma AllThreeAsked(st: State, id: nat, l: nat, x: Subject)
    requires Inv(st) && AllAsk(st) && st.hand == Some(Send(id)) && st.tx != [] && st.tx[0].id == id && st.tx[0].queued
    requires l == st.tx[0].link && l < |st.pcbs| && st.pcbs[l].state == PROBE_3 && Asked(st.tx[0].questions, x)
    ensures var hist := Since(ExecuteSend(st, id).trace, l);
            |hist| == 3 && forall i :: 0 <= i < 3 ==> hist[i].Sent? && Asked(hist[i].packet.questions, x)
  {
    ThirdAsks(st, id, l);
    LastProbe(st, id, l);
    hide Inv, ExecuteSend, Since, Start, Mine, Announced, Covers, AsksFully, AllAsk;
    var hist := Since(ExecuteSend(st, id).trace, l);
    var k :| 0 <= k < |hist[2].packet.questions| && hist[2].packet.questions[k].subject == x;
    assert Asked(hist[0].packet.questions, hist[2].packet.questions[k].subject);
    assert Asked(hist[1].packet.questions, hist[2].packet.questions[k].subject);
  }

  /**
   No service is announced unless each of the three probes before asked about it; and if addresses were
   probed for, each of them asked about the own name and the host of the service.
   */
  lemma AnnouncedWasAsked(st: State, id: nat, l: nat, service: nat)
    requires Inv(st) && AllAsk(st) && st.hand == Some(Send(id)) && st.tx != [] && st.tx[0].id == id && st.tx[0].queued
    requires l == st.tx[0].link && l < |st.pcbs| && st.pcbs[l].state == PROBE_3
    requires var mine := Mine(ExecuteSend(st, id).tx, l); |mine| == 1 && Names(mine[0].answers, service)
    ensures var hist := Since(ExecuteSend(st, id).trace, l);
            && |hist| == 3
            && (forall i :: 0 <= i < 3 ==> hist[i].Sent? && Asked(hist[i].packet.questions, OfService(service)))
            && (st.pcbs[l].probeIp ==> forall i :: 0 <= i < 3 ==>
                  Asked(hist[i].packet.questions, OwnName) && AsksHost(hist[i].packet.questions, service))
  {
    ThirdAsks(st, id, l);
    AnnouncedWasProbed(st, id, l, service);
    hide Inv, ExecuteSend, Since, Mine, Proposes, Asked, AllAsk;
    var qs := st.tx[0].questions;
    AllThreeAsked(st, id, l, OfService(service));
    if st.pcbs[l].probeIp {
      AllThreeAsked(st, id, l, OwnName);
      assert AsksHost(qs, service);
      if Asked(qs, OfHost(Some(service))) { AllThreeAsked(st, id, l, OfHost(Some(service))); }
      else { AllThreeAsked(st, id, l, OfHost(None)); }
    }
  }

  // ---------------------------------------------------------------- the question of another service

  function Both(a: nat, b: nat): seq<OutQuestion> {
    [OutQuestion(OfService(a), true), OutQuestion(OfService(b), true)]
  }

  lemma TwoAsked(a: nat, b: nat)
    requires a != b
    ensures ProbeServices([a, b], true, 2).questions == Both(a, b)
  {
    var one := ProbeServices([a, b], true, 1).questions;
    assert ProbeServices([a, b], true, 0).questions == [];
    assert one == [OutQuestion(OfService(a), true)];
    assert !Asked(one, OfService(b));
  }

  /** A link that was running begins to probe for two services. */
  lemma TwoProbed(st: State, l: nat, a: nat, b: nat, random: nat)
    requires Inv(st) && l < |st.pcbs| && a < |st.heap| && b < |st.heap| && a != b && st.hostname != []
    requires st.pcbs[l].state == RUNNING && !st.pcbs[l].probeIp
    ensures var s := InitProbe(st, l, [a, b], false, random);
            && |s.pcbs| == |st.pcbs| && s.heap == st.heap && Probing(s.pcbs[l]) && s.pcbs[l].services == [a, b]
            && s.pcbs[l].ready == st.pcbs[l].ready && |Mine(s.tx, l)| == 1
            && Mine(s.tx, l)[0].questions == Both(a, b)
  {
    assert Link(st, l);
    DropElsewhere(st, l);
    hide Inv, Base, Link, Mine, Since, Start, StartProbe, Elsewhere;
    StartTwo(Drop(st, l), l, a, b, random);
  }

  lemma StartTwo(st: State, l: nat, a: nat, b: nat, random: nat)
    requires Base(st) && l < |st.pcbs| && a < |st.heap| && b < |st.heap| && a != b && Mine(st.tx, l) == []
    requires var p := st.pcbs[l]; p.state == RUNNING && !p.probeIp && p.services == []
    ensures var s := StartProbe(st, l, [a, b], false, random);
            && |s.pcbs| == |st.pcbs| && s.heap == st.heap && Probing(s.pcbs[l]) && s.pcbs[l].services == [a, b]
            && s.pcbs[l].ready == st.pcbs[l].ready && |Mine(s.tx, l)| == 1
            && Mine(s.tx, l)[0].questions == Both(a, b)
  {
    TwoAsked(a, b);
    hide Base, Mine, Insert, ProbeServices, Elsewhere, Both;
    var x := ProbeSections(st, [a, b], true, false);
    var packet := NewPacket(st, l, false).(questions := x.questions, servers := x.servers);
    ScheduleNewOk(st, packet, FirstDelay(st.pcbs[l], random));
  }

  /**
   Where it fails: a ready link probes for two services of one type, and the second is removed. The
   question about the first is dropped, the one about the second stays, and the link goes on to probe for
   the first without asking about it.
   */
  lemma WrongQuestionDropped(st: State, l: nat, a: nat, b: nat, random: nat)
    requires Inv(st) && l < |st.pcbs| && a < |st.heap| && b < |st.heap| && a != b && st.hostname != []
    requires st.pcbs[l].state == RUNNING && !st.pcbs[l].probeIp && st.pcbs[l].ready
    requires st.heap[a].service == st.heap[b].service && st.heap[a].proto == st.heap[b].proto
    ensures InHeap(st, [a, b]) && Inv(InitProbe(st, l, [a, b], false, random))
    ensures Sane(InitProbe(st, l, [a, b], false, random))
    ensures var r := Next(InitProbe(st, l, [a, b], false, random), Unregister(b));
            && |r.pcbs| == |st.pcbs| && Probing(r.pcbs[l]) && r.pcbs[l].services == [a] && |Mine(r.tx, l)| == 1
            && var qs := Mine(r.tx, l)[0].questions;
               !Asked(qs, OfService(a)) && Asked(qs, OfService(b))
  {
    var s := InitProbe(st, l, [a, b], false, random);
    assert NoDup([a, b]) && InHeap(st, [a, b]);
    InvSane(st);
    ProbeOk(st, l, [a, b], false, random);
    TwoProbed(st, l, a, b, random);
    InvSane(s);
    hide InitProbe, Link, Base, Mine, NoDup;
    StruckOk(s, b);
    UnregisterIs(s, b);
    hide Next, Inv;
    LastOfTwo(s.(listed := Strike(s.listed, b)), l, a, b);
  }

  lemma LastOfTwo(st: State, l: nat, a: nat, b: nat)
    requires Inv(st) && l < |st.pcbs| && a < |st.heap| && b < |st.heap| && a != b
    requires Probing(st.pcbs[l]) && st.pcbs[l].ready && st.pcbs[l].services == [a, b] && |Mine(st.tx, l)| == 1
    requires Mine(st.tx, l)[0].questions == Both(a, b)
    requires st.heap[a].service == st.heap[b].service && st.heap[a].proto == st.heap[b].proto
    ensures OnLinks(st.tx, |st.pcbs|)
    ensures var r := Removed(st, b);
            && |r.pcbs| == |st.pcbs| && Probing(r.pcbs[l]) && r.pcbs[l].services == [a] && |Mine(r.tx, l)| == 1
            && var qs := Mine(r.tx, l)[0].questions;
               !Asked(qs, OfService(a)) && Asked(qs, OfService(b))
  {
    BaseOnLinks(st);
    RemovedCount(st, b);
    var mine, p := Mine(st.tx, l), st.pcbs[l];
    assert Link(st, l);
    RemovedLink(st, b, l);
    RemoveIsStrip(st, st.tx, st.pcbs, b);
    StrippedOn(st, st.tx, st.pcbs, b, l);
    FilledMine(Stripped(st, st.tx, st.pcbs, b).0, l);
    hide RemoveService, Stripped, Mine, Link, Inv;
    StripTwo(st, mine, p, a, b);
    hide StripOn;
  }

  lemma StripTwo(st: State, mine: seq<Packet>, p: Pcb, a: nat, b: nat)
    requires a < |st.heap| && b < |st.heap| && a != b && Probing(p) && p.ready && p.services == [a, b]
    requires |mine| == 1 && mine[0].questions == Both(a, b)
    requires st.heap[a].service == st.heap[b].service && st.heap[a].proto == st.heap[b].proto
    ensures var (s, q) := StripOn(st, mine, p, b);
            && Probing(q) && q.services == [a] && |Keep(s, Filled)| == 1
            && var qs := Keep(s, Filled)[0].questions; !Asked(qs, OfService(a)) && Asked(qs, OfService(b))
  {
    assert mine == [mine[0]] && mine[1..] == [];
    assert Held(p.services, b) by { assert [a, b][1] == b; }
    StripQuestions(st, mine[0], p, b);
    assert Strike([a, b], b) == [a] by { assert [a, b][1..] == [b] && [b][1..] == []; }
    assert FirstOfType(st, mine[0].questions, b) == 0;
    UnaskIs(st, mine[0].questions, b);
    hide Strip, Unask;
    var (m, q) := Strip(st, mine[0], p, b);
    assert StripOn(st, mine[1..], q, b) == ([], q);
    assert [m] + [] == [m];
    OneFilled(m);
    assert m.questions == [OutQuestion(OfService(b), true)];
    assert m.questions[0].subject == OfService(b);
  }
}
