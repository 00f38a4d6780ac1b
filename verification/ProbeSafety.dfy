/**
 Probing over whole runs (section 8.1 of RFC 6762): a link probes with a single packet, sends it three
 times, more than 250 ms apart, and only then announces what that packet proposed.
 */
module ProbeSafety {
  import opened Txt
  import opened Answers
  import opened TxQueue
  import opened Responder
  import opened Protocol
  import opened Wire

  // ---------------------------------------------------------------- the invariant of a link

  /** What was sent on a link since its probing began anew. */
  function Since(trace: seq<Event>, link: nat): seq<Event> {
    if trace == [] then []
    else
      var e := trace[|trace| - 1];
      if e.Restarted? && e.link == link then []
      else Since(trace[..|trace| - 1], link) + (if e.Sent? && e.link == link then [e] else [])
  }

  /** When probing on a link last began anew. */
  function Start(trace: seq<Event>, link: nat): Option<Event> {
    if trace == [] then None
    else
      var e := trace[|trace| - 1];
      if e.Restarted? && e.link == link then Some(e) else Start(trace[..|trace| - 1], link)
  }

  predicate NoDup(ids: seq<nat>) {
    forall i, j :: 0 <= i < j < |ids| ==> ids[i] != ids[j]
  }

  /** Every record of the second list is in the first. */
  predicate Covers(a: seq<Answer>, b: seq<Answer>) {
    forall k :: 0 <= k < |b| ==> Has(a, b[k].rtype, b[k].service, b[k].host)
  }

  /** Nothing is asked about in the second list that is not asked about in the first. */
  predicate AsksAgain(a: seq<OutQuestion>, b: seq<OutQuestion>) {
    forall k :: 0 <= k < |b| ==> Asked(a, b[k].subject)
  }

  predicate AllUnicast(qs: seq<OutQuestion>, unicast: bool) {
    forall k :: 0 <= k < |qs| ==> qs[k].unicast == unicast
  }

  /** The records of a probe: one per service, and one without service if addresses are probed for. */
  predicate Backed(servers: seq<Answer>, services: seq<nat>, ip: bool) {
    && (forall i :: 0 <= i < |services| ==> Has(servers, TYPE_SRV, Some(services[i]), NoHost))
    && (ip ==> exists j :: 0 <= j < |servers| && servers[j].service.None?)
  }

  function Wait(failed: nat): nat {
    if failed > 5 then 1000 else 120
  }

  /** The probes sent so far: the first asks for unicast replies, all are the same packet, well apart. */
  predicate Spaced(hist: seq<Event>, start: Event) {
    && start.Restarted?
    && (forall i :: 0 <= i < |hist| ==>
          hist[i].Sent? && !hist[i].packet.response && AllUnicast(hist[i].packet.questions, i == 0))
    && (hist != [] ==> hist[0].at > start.at + Wait(start.failed))
    && (forall i :: 1 <= i < |hist| ==> Follows(hist[i - 1], hist[i]))
  }

  /** Two dispatches of one packet, the later one proposing nothing new and asking nothing new. */
  predicate Follows(a: Event, b: Event) {
    && a.Sent? && b.Sent? && b.at > a.at + 250 && b.packet.id == a.packet.id
    && Covers(a.packet.servers, b.packet.servers) && AsksAgain(a.packet.questions, b.packet.questions)
  }

  /** The packet with which a link probes, and what it owes to the dispatches before. */
  predicate ProbePacket(m: Packet, hist: seq<Event>, start: Event, p: Pcb) {
    && !m.response && !m.distributed && AllUnicast(m.questions, hist == []) && start.Restarted?
    && (hist == [] ==> start.at + Wait(start.failed) <= m.sendAt < start.at + Wait(start.failed) + 128)
    && (hist != [] ==> Resent(hist[|hist| - 1], m))
    && (p.ready ==> Backed(m.servers, p.services, p.probeIp))
  }

  predicate Resent(last: Event, m: Packet) {
    && last.Sent? && m.id == last.packet.id && m.sendAt == last.at + 250
    && Covers(last.packet.servers, m.servers) && AsksAgain(last.packet.questions, m.questions)
  }

  /** A probing link probes for something; it has at most its one packet listed, and that one if it is ready. */
  predicate ProbeLink(p: Pcb, mine: seq<Packet>, hist: seq<Event>, start: Option<Event>) {
    && start.Some? && Spaced(hist, start.value) && |hist| == p.state - PROBE_1
    && (p.services != [] || p.probeIp)
    && |mine| <= 1 && (p.ready ==> |mine| == 1)
    && (mine != [] ==> ProbePacket(mine[0], hist, start.value, p))
  }

  /** What a probe may start from: services are probed for only while the link probes, and none twice. */
  predicate Weak(p: Pcb, named: bool) {
    && NoDup(p.services) && (p.state == OFF || PROBE_1 <= p.state <= RUNNING)
    && (if Probing(p) then named else p.services == [])
  }

  predicate LinkOk(p: Pcb, mine: seq<Packet>, hist: seq<Event>, start: Option<Event>, named: bool) {
    Weak(p, named) && (Probing(p) ==> ProbeLink(p, mine, hist, start))
  }

  function Mine(tx: seq<Packet>, link: nat): seq<Packet> {
    Keep(tx, OnLink(link))
  }

  predicate Link(st: State, l: nat)
    requires l < |st.pcbs|
  {
    LinkOk(st.pcbs[l], Mine(st.tx, l), Since(st.trace, l), Start(st.trace, l), st.hostname != [])
  }

  predicate Base(st: State) {
    && TxOk(st.tx, Pending(st.hand, st.actions), st.now, st.nextId, |st.pcbs|)
    && AllInHeap(st) && InHeap(st, st.listed) && NoDup(st.listed)
  }

  predicate Inv(st: State) {
    Base(st) && forall l :: 0 <= l < |st.pcbs| ==> Link(st, l)
  }

  /** Nothing changes for the other links. */
  predicate Elsewhere(st: State, r: State, l: nat) {
    && |r.pcbs| == |st.pcbs| && r.hostname == st.hostname
    && forall k :: 0 <= k < |st.pcbs| && k != l ==>
         r.pcbs[k] == st.pcbs[k] && Mine(r.tx, k) == Mine(st.tx, k)
         && Since(r.trace, k) == Since(st.trace, k) && Start(r.trace, k) == Start(st.trace, k)
  }

  // ---------------------------------------------------------------- the trace

  lemma SinceMore(trace: seq<Event>, e: Event, link: nat)
    ensures Since(trace + [e], link) ==
            if e.Restarted? && e.link == link then []
            else Since(trace, link) + (if e.Sent? && e.link == link then [e] else [])
    ensures Start(trace + [e], link) == if e.Restarted? && e.link == link then Some(e) else Start(trace, link)
  {
    assert (trace + [e])[..|trace|] == trace;
  }

  // ---------------------------------------------------------------- what a probe proposes

  lemma {:induction false} ProbeServicesHas(ids: seq<nat>, first: bool, n: nat)
    requires n <= |ids|
    ensures var s := ProbeServices(ids, first, n);
            && AllUnicast(s.questions, first)
            && (forall k | 0 <= k < |s.questions| ::
                  s.questions[k].subject.OfService? &&
                  Has(s.servers, TYPE_SRV, Some(s.questions[k].subject.id), NoHost))
            && (forall i :: 0 <= i < n ==> Has(s.servers, TYPE_SRV, Some(ids[i]), NoHost))
  {
    if n > 0 {
      ProbeServicesHas(ids, first, n - 1);
      var s, r := ProbeServices(ids, first, n - 1), ProbeServices(ids, first, n);
      AllocHas(s.servers, TYPE_SRV, Some(ids[n - 1]), NoHost, false, TYPE_SRV, Some(ids[n - 1]), NoHost);
      assert s.servers <= r.servers;
      forall i | 0 <= i < n ensures Has(r.servers, TYPE_SRV, Some(ids[i]), NoHost) {
        if i < n - 1 { HasMono(s.servers, r.servers, TYPE_SRV, Some(ids[i]), NoHost); }
      }
      forall k | 0 <= k < |r.questions|
        ensures r.questions[k].subject.OfService? && Has(r.servers, TYPE_SRV, Some(r.questions[k].subject.id), NoHost)
      {
        if k < |s.questions| { HasMono(s.servers, r.servers, TYPE_SRV, Some(s.questions[k].subject.id), NoHost); }
      }
    }
  }

  lemma {:induction false} HostQuestionsUnicast(st: State, qs: seq<OutQuestion>, ids: seq<nat>, first: bool, n: nat)
    requires n <= |ids| && InHeap(st, ids) && AllUnicast(qs, first)
    ensures AllUnicast(HostQuestions(st, qs, ids, first, n), first)
  {
    if n > 0 { HostQuestionsUnicast(st, qs, ids, first, n - 1); }
  }

  lemma AllocHostServiceless(l: seq<Answer>, host: HostRef, flush: bool)
    ensures var r := AllocHost(l, host, flush);
            l <= r && exists j :: 0 <= j < |r| && r[j].service.None?
  {
    var a := Alloc(l, TYPE_A, None, host, flush);
    AllocHas(l, TYPE_A, None, host, flush, TYPE_A, None, host);
    var j :| 0 <= j < |a| && a[j].rtype == TYPE_A && a[j].service == None && a[j].host == host;
    assert AllocHost(l, host, flush)[j] == a[j];
  }

  lemma {:induction false} HostRecordsServiceless(st: State, l: seq<Answer>, ids: seq<nat>, flush: bool, n: nat)
    requires n <= |ids| && InHeap(st, ids)
    ensures var r := HostRecords(st, l, ids, flush, n);
            l <= r && (n > 0 ==> exists j :: 0 <= j < |r| && r[j].service.None?)
  {
    if n > 0 {
      HostRecordsServiceless(st, l, ids, flush, n - 1);
      var host := HostItem(st.heap[ids[n - 1]].hostname, ServerOf(st));
      AllocHostServiceless(HostRecords(st, l, ids, flush, n - 1), host, flush);
    }
  }

  lemma ProbeIsBacked(st: State, ids: seq<nat>, first: bool, ip: bool)
    requires InHeap(st, ids)
    ensures var s := ProbeSections(st, ids, first, ip); AllUnicast(s.questions, first) && Backed(s.servers, ids, ip)
  {
    ProbeServicesHas(ids, first, |ids|);
    var s := ProbeServices(ids, first, |ids|);
    if ip {
      HostQuestionsUnicast(st, s.questions, ids, first, |ids|);
      var r := Hosts(st, s.servers, ids, false);
      if ids == [] { AllocHostServiceless(s.servers, HostItem(Some(st.hostname), ServerOf(st)), false); }
      else { HostRecordsServiceless(st, s.servers, ids, false, |ids|); }
      forall i | 0 <= i < |ids| ensures Has(r, TYPE_SRV, Some(ids[i]), NoHost) {
        HasMono(s.servers, r, TYPE_SRV, Some(ids[i]), NoHost);
      }
    }
  }

  // ---------------------------------------------------------------- lists of services

  lemma {:induction false} MissingNoDup(ids: seq<nat>, had: seq<nat>)
    requires NoDup(ids)
    ensures NoDup(Missing(ids, had))
  {
    if ids != [] {
      MissingNoDup(ids[1..], had);
      MissingFrom(ids[1..], had);
      var t := Missing(ids[1..], had);
      forall j | 0 <= j < |t| ensures t[j] != ids[0] {
        assert Held(ids[1..], t[j]);
        var i :| 0 <= i < |ids[1..]| && ids[1..][i] == t[j];
        assert ids[i + 1] == t[j];
      }
    }
  }

  lemma ConcatNoDup(a: seq<nat>, b: seq<nat>)
    requires NoDup(a) && NoDup(b) && forall i :: 0 <= i < |a| ==> !Held(b, a[i])
    ensures NoDup(a + b)
  {
    forall i, j | 0 <= i < j < |a + b| ensures (a + b)[i] != (a + b)[j] {
      if i < |a| <= j { assert b[j - |a|] == (a + b)[j]; }
    }
  }

  /**
   * While a link probes, a new start probes for what it was not probing for yet and then for what it
   * was: the union of the two, none twice. It starts with nothing old when it does not probe.
   */
  lemma MergeIsUnion(p: Pcb, ids: seq<nat>, id: nat)
    requires NoDup(ids) && NoDup(p.services) && (!Probing(p) ==> p.services == [])
    ensures var all := Merged(p, if Probing(p) then Missing(ids, p.services) else ids);
            && NoDup(all) && (Held(all, id) <==> Held(ids, id) || Held(p.services, id))
            && |p.services| <= |all| && all[|all| - |p.services|..] == p.services
  {
    var m := if Probing(p) then Missing(ids, p.services) else ids;
    var all := m + p.services;
    if Probing(p) {
      MissingFrom(ids, p.services);
      MissingNoDup(ids, p.services);
    }
    ConcatNoDup(m, p.services);
    assert Merged(p, m) == all;
    HeldConcat(m, p.services, id);
    if Probing(p) { MissingHeld(ids, p.services, id); }
    hide NoDup, Held, Missing;
  }

  lemma HeldConcat(a: seq<nat>, b: seq<nat>, id: nat)
    ensures Held(a + b, id) == (Held(a, id) || Held(b, id))
  {
    var all := a + b;
    if Held(a, id) {
      var i :| 0 <= i < |a| && a[i] == id;
      assert all[i] == id;
    } else if Held(b, id) {
      var i :| 0 <= i < |b| && b[i] == id;
      assert all[|a| + i] == id;
    }
  }

  lemma MissingHeld(ids: seq<nat>, had: seq<nat>, id: nat)
    ensures Held(Missing(ids, had), id) == (Held(ids, id) && !Held(had, id))
  {
    MissingFrom(ids, had);
    var m := Missing(ids, had);
    if Held(m, id) {
      var i :| 0 <= i < |m| && m[i] == id;
      assert Held(ids, m[i]) && !Held(had, m[i]);
    } else if Held(ids, id) {
      var i :| 0 <= i < |ids| && ids[i] == id;
    }
  }

  // ---------------------------------------------------------------- one link starts a probe

  lemma DropElsewhere(st: State, l: nat)
    requires Base(st) && l < |st.pcbs|
    ensures var r := Drop(st, l); Base(r) && Elsewhere(st, r, l) && Mine(r.tx, l) == []
  {
    hide Sorted, Pairs, Each, Listed, Since, Start, NoDup;
    KeepTxOk(st.tx, OffLink(l), Pending(st.hand, st.actions), st.now, st.nextId, |st.pcbs|);
    forall k | 0 <= k < |st.pcbs| ensures k != l ==> Mine(Drop(st, l).tx, k) == Mine(st.tx, k) {
      DropOthers(st.tx, l, k);
    }
    DropOthers(st.tx, l, l);
  }

  lemma DropOthers(tx: seq<Packet>, l: nat, k: nat)
    ensures Mine(WithoutLink(tx, l), k) == if k == l then [] else Mine(tx, k)
  {
    KeepTwice(tx, OffLink(l), OnLink(k));
    if k == l { KeepNone(tx, Both(OffLink(l), OnLink(l))); }
    else { KeepSame(tx, Both(OffLink(l), OnLink(k)), OnLink(k)); }
  }

  lemma InsertMine(tx: seq<Packet>, p: Packet, k: nat)
    ensures p.link != k ==> Mine(Insert(tx, p), k) == Mine(tx, k)
    ensures p.link == k && Mine(tx, k) == [] ==> Mine(Insert(tx, p), k) == [p]
  {
    if p.link != k { InsertDropped(tx, p, OnLink(k)); }
    else if Mine(tx, k) == [] {
      InsertKeeps(tx, p, OnLink(k));
      var c := Position(tx, p.sendAt);
      KeepAll([p], OnLink(k));
      hide Keep;
      KeepConcat(tx[..c], tx[c..], OnLink(k));
      assert tx == tx[..c] + tx[c..];
    }
  }

  /** A packet of the link that is not listed, and that no action is on its way for, is scheduled. */
  lemma ScheduleOk(st: State, m: Packet, after: nat)
    requires Base(st) && m.link < |st.pcbs| && !m.queued && m.id < st.nextId && !IsIn(st.tx, m.id)
    requires var ids := Pending(st.hand, st.actions); forall i :: 0 <= i < |ids| ==> ids[i] != m.id
    ensures var r := Schedule(st, m, after);
            && Base(r) && Elsewhere(st, r, m.link) && r.pcbs == st.pcbs
            && (Mine(st.tx, m.link) == [] ==> Mine(r.tx, m.link) == [m.(sendAt := st.now + after)])
  {
    hide Sorted, Pairs, Each, Listed, Since, Start, Keep, Position, IsIn, Pending, NoDup;
    var p := m.(sendAt := st.now + after);
    InsertTxOk(st.tx, p, Pending(st.hand, st.actions), st.now, st.nextId, |st.pcbs|);
    forall k | 0 <= k < |st.pcbs| ensures k != m.link ==> Mine(Insert(st.tx, p), k) == Mine(st.tx, k) {
      InsertMine(st.tx, p, k);
    }
    InsertMine(st.tx, p, m.link);
  }

  /** The next identity is nobody's. */
  lemma NextIsFresh(st: State)
    requires Base(st)
    ensures Base(st.(nextId := st.nextId + 1)) && !IsIn(st.tx, st.nextId)
    ensures var ids := Pending(st.hand, st.actions); forall i :: 0 <= i < |ids| ==> ids[i] != st.nextId
  {
    hide Pairs, Listed, Pending, NoDup;
  }

  lemma ScheduleNewOk(st: State, m: Packet, after: nat)
    requires Base(st) && m.link < |st.pcbs| && !m.queued && m.id == st.nextId
    ensures var r := ScheduleNew(st, m, after);
            && Base(r) && Elsewhere(st, r, m.link) && r.pcbs == st.pcbs
            && (Mine(st.tx, m.link) == [] ==> Mine(r.tx, m.link) == [m.(sendAt := st.now + after)])
  {
    hide Base, Since, Start, Keep, Position, Pending, IsIn;
    NextIsFresh(st);
    var s := st.(nextId := st.nextId + 1);
    ScheduleOk(s, m, after);
    assert ScheduleNew(st, m, after) == Schedule(s, m, after);
  }

  /** The state of the link is set and the trace grows by an event of the link. */
  lemma TellElsewhere(st: State, l: nat, p: Pcb, e: Event)
    requires l < |st.pcbs| && (e.Restarted? ==> e.link == l) && (e.Sent? ==> e.link == l)
    ensures Elsewhere(st, Tell(SetPcb(st, l, p), e), l)
  {
    forall k | 0 <= k < |st.pcbs| && k != l
      ensures Since(st.trace + [e], k) == Since(st.trace, k) && Start(st.trace + [e], k) == Start(st.trace, k)
    {
      SinceMore(st.trace, e, k);
    }
  }

  lemma ElsewhereTwice(st: State, s: State, r: State, l: nat)
    requires Elsewhere(st, s, l) && Elsewhere(s, r, l)
    ensures Elsewhere(st, r, l)
  {
  }

  lemma StartProbeBase(st: State, l: nat, ids: seq<nat>, ip: bool, random: nat)
    requires Base(st) && l < |st.pcbs| && InHeap(st, ids)
    ensures var r := StartProbe(st, l, ids, ip, random); Base(r) && Elsewhere(st, r, l)
  {
    hide Since, Start, Keep, Position, Pairs, Each, Listed, Pending, ProbeSections, NoDup;
    var p := st.pcbs[l];
    var all := Merged(p, ids);
    var s := ProbeSections(st, all, true, p.probeIp || ip);
    var packet := NewPacket(st, l, false).(questions := s.questions, servers := s.servers);
    var t := ScheduleNew(st, packet, FirstDelay(p, random));
    ScheduleNewOk(st, packet, FirstDelay(p, random));
    var q := p.(state := PROBE_1, services := all, probeIp := p.probeIp || ip, running := true);
    TellElsewhere(t, l, q, Restarted(l, st.now, p.failed));
    ElsewhereTwice(st, t, StartProbe(st, l, ids, ip, random), l);
  }

  lemma StartProbeLink(st: State, l: nat, ids: seq<nat>, ip: bool, random: nat)
    requires Base(st) && l < |st.pcbs| && InHeap(st, ids) && Mine(st.tx, l) == []
    requires NoDup(Merged(st.pcbs[l], ids)) && st.hostname != [] && (Merged(st.pcbs[l], ids) != [] || ip)
    ensures Link(StartProbe(st, l, ids, ip, random), l)
  {
    hide Keep, Insert, TxOk, Pending, ProbeSections, NoDup, LinkOk, Backed, AllUnicast, Since, Start;
    var p := st.pcbs[l];
    var all := Merged(p, ids);
    var s := ProbeSections(st, all, true, p.probeIp || ip);
    ProbeIsBacked(st, all, true, p.probeIp || ip);
    var packet := NewPacket(st, l, false).(questions := s.questions, servers := s.servers);
    ScheduleNewOk(st, packet, FirstDelay(p, random));
    SinceMore(st.trace, Restarted(l, st.now, p.failed), l);
    var r := StartProbe(st, l, ids, ip, random);
    BegunLink(r.pcbs[l], packet.(sendAt := st.now + FirstDelay(p, random)), Restarted(l, st.now, p.failed));
  }

  /** A link as it is when its probe has begun. */
  lemma BegunLink(p: Pcb, m: Packet, e: Event)
    requires p.state == PROBE_1 && NoDup(p.services) && (p.services != [] || p.probeIp)
    requires !m.response && !m.distributed && AllUnicast(m.questions, true) && Backed(m.servers, p.services, p.probeIp)
    requires e.Restarted? && e.at + Wait(e.failed) <= m.sendAt < e.at + Wait(e.failed) + 128
    ensures LinkOk(p, [m], [], Some(e), true)
  {
    hide NoDup, Backed, AllUnicast;
  }

  /** What the other links have stays; this one is as a probe leaves it. */
  lemma InitProbeOk(st: State, l: nat, ids: seq<nat>, ip: bool, random: nat)
    requires Base(st) && l < |st.pcbs| && InHeap(st, ids) && NoDup(ids) && Weak(st.pcbs[l], st.hostname != [])
    requires ids != [] || ip
    ensures var r := InitProbe(st, l, ids, ip, random);
            Base(r) && Elsewhere(st, r, l) && Link(r, l) && r.pcbs[l].ready == st.pcbs[l].ready && r.listed == st.listed
  {
    hide Since, Start, Keep, Position, Pairs, Each, Listed, Pending, ProbeSections;
    DropElsewhere(st, l);
    var s, p := Drop(st, l), st.pcbs[l];
    if st.hostname != [] {
      var new_ids := if Probing(p) then Missing(ids, p.services) else ids;
      MissingInHeap(st, ids, p.services);
      MergeIsUnion(p, ids, if ids == [] then 0 else ids[0]);
      if ids != [] { assert Held(ids, ids[0]); }
      hide NoDup, Missing, InHeap;
      StartProbeBase(s, l, new_ids, ip, random);
      StartProbeLink(s, l, new_ids, ip, random);
      ElsewhereTwice(st, s, StartProbe(s, l, new_ids, ip, random), l);
    }
  }

  /** Links that nothing happened to are as they were. */
  lemma InvFrom(st: State, r: State, l: nat)
    requires Inv(st) && l < |st.pcbs| && Elsewhere(st, r, l) && Base(r) && Link(r, l)
    ensures Inv(r)
  {
    hide Base, LinkOk, Since, Start, Keep;
    forall k | 0 <= k < |r.pcbs| ensures Link(r, k) {
      if k != l { assert Link(st, k); }
    }
  }

  // ---------------------------------------------------------------- a packet goes out

  lemma PendingHand(a: Action, actions: seq<Action>)
    ensures Pending(Some(a), actions) == (if a.Send? then [a.id] else []) + Pending(None, actions)
  {
    assert ([a] + actions)[1..] == actions;
    assert [] + actions == actions;
  }

  /** The head of the list is taken, together with its action. */
  lemma TakeHeadOk(st: State, id: nat)
    requires Inv(st) && st.hand == Some(Send(id)) && st.tx != [] && st.tx[0].id == id
    ensures var r := st.(hand := None, tx := st.tx[1..]); var l := st.tx[0].link;
            && l < |st.pcbs| && st.tx[0].queued && st.tx[0].sendAt < st.now && id < st.nextId
            && Base(r) && !IsIn(r.tx, id) && Elsewhere(st, r, l)
            && Mine(st.tx, l) == [st.tx[0]] + Mine(r.tx, l)
    ensures var ids := Pending(None, st.actions); forall i :: 0 <= i < |ids| ==> ids[i] != id
  {
    PendingHand(Send(id), st.actions);
    var rest := Pending(None, st.actions);
    hide Link, NoDup, Pending, Since, Start;
    HeadTxOk(st.tx, rest, st.now, st.nextId, |st.pcbs|);
    ActionFindsHead(st.tx, id, rest, st.now, st.nextId, |st.pcbs|);
    hide Pairs, Listed, QueuedIds;
    var r := st.(hand := None, tx := st.tx[1..]);
    forall k | 0 <= k < |st.pcbs| && k != st.tx[0].link ensures Mine(r.tx, k) == Mine(st.tx, k) {}
  }

  lemma CoversSelf(l: seq<Answer>)
    ensures Covers(l, l)
  {
  }

  /** One more dispatch of the probe packet. */
  lemma SpacedMore(p: Pcb, m: Packet, hist: seq<Event>, start: Event, e: Event)
    requires Spaced(hist, start) && ProbePacket(m, hist, start, p)
    requires e.Sent? && e.at > m.sendAt && e.packet == m.(queued := false)
    ensures Spaced(hist + [e], start)
  {
    var r := hist + [e];
    hide Covers, Backed, AsksAgain;
    forall i | 0 <= i < |r| ensures r[i].Sent? && !r[i].packet.response && AllUnicast(r[i].packet.questions, i == 0) {
      if i < |hist| { assert r[i] == hist[i]; }
    }
    forall i | 1 <= i < |r| ensures Follows(r[i - 1], r[i]) {
      if i < |hist| { assert Follows(hist[i - 1], hist[i]); }
    }
  }

  /** A probe is sent and scheduled again. */
  lemma ProbeGoesOut(st: State, r: State, m: Packet, n: Packet)
    requires m.link < |st.pcbs| == |r.pcbs| && m.sendAt < st.now
    requires var p := st.pcbs[m.link];
             && (p.state == PROBE_1 || p.state == PROBE_2) && Link(st, m.link) && Mine(st.tx, m.link) == [m]
             && r.pcbs[m.link] == p.(state := p.state + 1) && r.hostname == st.hostname
    requires var e := Sent(m.link, st.now, m.(queued := false));
             && Since(r.trace, m.link) == Since(st.trace, m.link) + [e] &&
                Start(r.trace, m.link) == Start(st.trace, m.link)
    requires Mine(r.tx, m.link) == [n.(sendAt := st.now + 250)]
    requires n == m.(queued := false, questions := n.questions) && AllUnicast(n.questions, false)
    requires AsksAgain(m.questions, n.questions)
    ensures Link(r, m.link)
  {
    var l, p := m.link, st.pcbs[m.link];
    var hist, start := Since(st.trace, l), Start(st.trace, l).value;
    var e := Sent(l, st.now, m.(queued := false));
    SpacedMore(p, m, hist, start, e);
    CoversSelf(m.servers);
    hide Spaced, Backed, Covers, NoDup, AllUnicast, AsksAgain;
    assert Resent(e, n.(sendAt := st.now + 250));
  }

  /** The state after the head was taken and, unless its link is off, sent. */
  function Departed(st: State): State
    requires st.tx != []
  {
    Tell(st.(hand := None, tx := st.tx[1..]), Sent(st.tx[0].link, st.now, st.tx[0].(queued := false)))
  }

  lemma DepartedOk(st: State, id: nat)
    requires Inv(st) && st.hand == Some(Send(id)) && st.tx != [] && st.tx[0].id == id
    ensures var l := st.tx[0].link; var s := Departed(st);
            && l < |st.pcbs| && st.tx[0].queued && id < st.nextId
            && Base(s) && !IsIn(s.tx, id) && Elsewhere(st, s, l) && Weak(st.pcbs[l], st.hostname != [])
    ensures var ids := Pending(None, st.actions); forall i :: 0 <= i < |ids| ==> ids[i] != id
  {
    hide Spaced, Backed, Keep, Since, Start, TxOk, Pending, IsIn, NoDup, Weak, ProbeLink;
    TakeHeadOk(st, id);
    var l := st.tx[0].link;
    assert Link(st, l);
    var t := st.(hand := None, tx := st.tx[1..]);
    TellElsewhere(t, l, st.pcbs[l], Sent(l, st.now, st.tx[0].(queued := false)));
    ElsewhereTwice(st, t, Departed(st), l);
  }

  /** The head of a link that probes is its only packet. */
  lemma HeadIsProbe(st: State, id: nat)
    requires Inv(st) && st.hand == Some(Send(id)) && st.tx != [] && st.tx[0].id == id && st.tx[0].link < |st.pcbs|
    requires Probing(st.pcbs[st.tx[0].link])
    ensures var l := st.tx[0].link;
            Link(st, l) && Mine(st.tx, l) == [st.tx[0]] && Mine(st.tx[1..], l) == [] && st.tx[0].sendAt < st.now
  {
    hide Spaced, Backed, Keep, Since, Start, NoDup, TxOk, Pending, IsIn, ProbePacket;
    TakeHeadOk(st, id);
    assert Link(st, st.tx[0].link);
  }

  lemma ProbeSentOk(st: State, id: nat)
    requires Inv(st) && st.hand == Some(Send(id)) && st.tx != [] && st.tx[0].id == id && st.tx[0].link < |st.pcbs|
    requires var s := st.pcbs[st.tx[0].link].state; s == PROBE_1 || s == PROBE_2
    ensures Inv(ExecuteSend(st, id))
  {
    hide Inv, Base, Link, Keep, Since, Start, Pending, IsIn, Insert;
    DepartedOk(st, id);
    HeadIsProbe(st, id);
    var head, r := st.tx[0], ExecuteSend(st, id);
    var l, m, s := head.link, head.(queued := false), Departed(st);
    var n := if st.pcbs[l].state == PROBE_1 then m.(questions := Multicast(m.questions)) else m;
    ScheduleOk(s, n, 250);
    SetPcbBase(Schedule(s, n, 250), l, r.pcbs[l]);
    SinceMore(st.trace, Sent(l, st.now, m), l);
    ElsewhereTwice(st, s, r, l);
    ProbeIsUnicast(st, head, l);
    MulticastAsks(head.questions);
    ProbeGoesOut(st, r, head, n);
    InvFrom(st, r, l);
  }

  lemma SetPcbBase(st: State, l: nat, p: Pcb)
    requires Base(st) && l < |st.pcbs| && p.services == st.pcbs[l].services
    ensures Base(SetPcb(st, l, p))
  {
    hide TxOk, NoDup, Pending;
  }

  lemma MulticastAsks(qs: seq<OutQuestion>)
    ensures AsksAgain(qs, qs) && AsksAgain(qs, Multicast(qs))
  {
    forall k | 0 <= k < |qs| ensures Asked(qs, qs[k].subject) && Asked(qs, Multicast(qs)[k].subject) {}
  }

  /** Only the first probe asks for unicast replies. */
  lemma ProbeIsUnicast(st: State, m: Packet, l: nat)
    requires l < |st.pcbs| && Link(st, l) && Mine(st.tx, l) == [m] && Probing(st.pcbs[l])
    ensures AllUnicast(m.questions, st.pcbs[l].state == PROBE_1)
  {
    hide Spaced, Backed, Keep, Since, Start, NoDup;
  }

  /** A link that does not probe, or is done with it, has nothing to show for its packets. */
  lemma SettledOk(st: State, s: State, r: State, l: nat, p: Pcb)
    requires Inv(st) && l < |st.pcbs| && Elsewhere(st, s, l) && Base(s) && Elsewhere(s, r, l) && Base(r)
    requires r.pcbs[l] == p && !Probing(p) && Weak(p, st.hostname != [])
    ensures Inv(r)
  {
    hide Base, Since, Start, Keep, Weak, ProbeLink;
    ElsewhereTwice(st, s, r, l);
    InvFrom(st, r, l);
  }

  lemma LastProbeOk(st: State, id: nat)
    requires Inv(st) && st.hand == Some(Send(id)) && st.tx != [] && st.tx[0].id == id && st.tx[0].link < |st.pcbs|
    requires st.pcbs[st.tx[0].link].state == PROBE_3
    ensures Inv(ExecuteSend(st, id))
  {
    hide Inv, Keep, Since, Start, TxOk, Pending, IsIn, Position, Announced;
    DepartedOk(st, id);
    var s, l := Departed(st), st.tx[0].link;
    var a := NewPacket(s, l, true).(answers := Announced(s, st.tx[0].servers, |st.tx[0].servers|));
    ScheduleNewOk(s, a, 250);
    SettledOk(st, s, ExecuteSend(st, id), l, ExecuteSend(st, id).pcbs[l]);
  }

  lemma OtherSentOk(st: State, id: nat)
    requires Inv(st) && st.hand == Some(Send(id)) && st.tx != [] && st.tx[0].id == id && st.tx[0].link < |st.pcbs|
    requires var s := st.pcbs[st.tx[0].link].state; s == OFF || s > PROBE_3
    ensures Inv(ExecuteSend(st, id))
  {
    if st.pcbs[st.tx[0].link].state == OFF { OffSentOk(st, id); } else { ResponseSentOk(st, id); }
  }

  /** On a link that is off the packet is dropped. */
  lemma OffSentOk(st: State, id: nat)
    requires Inv(st) && st.hand == Some(Send(id)) && st.tx != [] && st.tx[0].id == id && st.tx[0].link < |st.pcbs|
    requires st.pcbs[st.tx[0].link].state == OFF
    ensures Inv(ExecuteSend(st, id))
  {
    hide Inv, Keep, Since, Start, TxOk, Pending, IsIn, Position, Base;
    DepartedOk(st, id);
    TakeHeadOk(st, id);
    var r := st.(hand := None, tx := st.tx[1..]);
    SettledOk(st, r, r, st.tx[0].link, st.pcbs[st.tx[0].link]);
  }

  /** Announcements and replies go out; an announcement is scheduled once more. */
  lemma ResponseSentOk(st: State, id: nat)
    requires Inv(st) && st.hand == Some(Send(id)) && st.tx != [] && st.tx[0].id == id && st.tx[0].link < |st.pcbs|
    requires st.pcbs[st.tx[0].link].state > PROBE_3
    ensures Inv(ExecuteSend(st, id))
  {
    hide Inv, Keep, Since, Start, TxOk, Pending, IsIn, Insert, NoDup, ProbeLink, Multicast;
    DepartedOk(st, id);
    var s, l := Departed(st), st.tx[0].link;
    ScheduleOk(s, st.tx[0].(queued := false), 1000);
    SettledOk(st, s, ExecuteSend(st, id), l, ExecuteSend(st, id).pcbs[l]);
  }

  /** The service task handles the send action in its hand. */
  lemma ExecuteSendOk(st: State, id: nat)
    requires Inv(st) && st.hand == Some(Send(id)) && (st.tx != [] ==> st.tx[0].link < |st.pcbs|)
    ensures Inv(ExecuteSend(st, id))
  {
    PendingHand(Send(id), st.actions);
    if st.tx != [] && st.tx[0].id == id {
      var s := st.pcbs[st.tx[0].link].state;
      assert Link(st, st.tx[0].link);
      if s == PROBE_1 || s == PROBE_2 { ProbeSentOk(st, id); }
      else if s == PROBE_3 { LastProbeOk(st, id); }
      else { OtherSentOk(st, id); }
    } else {
      hide Link, Since, Start, Keep, NoDup;
      var rest := Pending(None, st.actions);
      if IsIn(st.tx, id) { ActionFindsHead(st.tx, id, rest, st.now, st.nextId, |st.pcbs|); }
      StaleTxOk(st.tx, id, rest, st.now, st.nextId, |st.pcbs|);
      SameLinks(st, ExecuteSend(st, id));
    }
  }

  lemma SetElsewhere(st: State, l: nat, p: Pcb)
    requires l < |st.pcbs|
    ensures Elsewhere(st, SetPcb(st, l, p), l)
  {
  }

  /** Handling a send action touches no link but that of the packet. */
  lemma SendElsewhere(st: State, id: nat)
    requires Inv(st) && st.hand == Some(Send(id)) && st.tx != [] && st.tx[0].id == id
    ensures st.tx[0].link < |st.pcbs| && Elsewhere(st, ExecuteSend(st, id), st.tx[0].link)
  {
    hide Inv, Base, Link, Keep, Since, Start, Pending, IsIn, Insert, Elsewhere, Multicast, Announced;
    DepartedOk(st, id);
    var l, s, r := st.tx[0].link, Departed(st), ExecuteSend(st, id);
    var m, p := st.tx[0].(queued := false), st.pcbs[l];
    if p.state == OFF {
      TakeHeadOk(st, id);
    } else if p.state == PROBE_1 || p.state == PROBE_2 {
      AgainElsewhere(st, s, r, if p.state == PROBE_1 then m.(questions := Multicast(m.questions)) else m, 250);
    } else if p.state == PROBE_3 {
      var a := NewPacket(s, l, true).(answers := Announced(s, m.servers, |m.servers|));
      ScheduleNewOk(s, a, 250);
      SetElsewhere(ScheduleNew(s, a, 250), l, r.pcbs[l]);
      ElsewhereTwice(s, ScheduleNew(s, a, 250), r, l);
      ElsewhereTwice(st, s, r, l);
    } else if Announcing(p) && p.state != ANNOUNCE_3 {
      AgainElsewhere(st, s, r, m, 1000);
    } else {
      SetElsewhere(s, l, r.pcbs[l]);
      ElsewhereTwice(st, s, r, l);
    }
  }

  lemma AgainElsewhere(st: State, s: State, r: State, m: Packet, after: nat)
    requires m.link < |st.pcbs| && Elsewhere(st, s, m.link) && Base(s)
    requires !m.queued && m.id < s.nextId && !IsIn(s.tx, m.id)
    requires |s.pcbs| == |st.pcbs| == |r.pcbs| && r == SetPcb(Schedule(s, m, after), m.link, r.pcbs[m.link])
    requires var ids := Pending(s.hand, s.actions); forall i :: 0 <= i < |ids| ==> ids[i] != m.id
    ensures Elsewhere(st, r, m.link)
  {
    hide Base, Keep, Since, Start, Pending, IsIn, Insert, Elsewhere;
    ScheduleOk(s, m, after);
    SetElsewhere(Schedule(s, m, after), m.link, r.pcbs[m.link]);
    ElsewhereTwice(s, Schedule(s, m, after), r, m.link);
    ElsewhereTwice(st, s, r, m.link);
  }

  /** A link depends on its state, its packets and its trace only. */
  lemma SameLinks(st: State, r: State)
    requires Inv(st) && r.pcbs == st.pcbs && r.hostname == st.hostname && r.trace == st.trace && r.tx == st.tx &&
             Base(r)
    ensures Inv(r)
  {
    forall l | 0 <= l < |r.pcbs| ensures Link(r, l) { assert Link(st, l); }
  }
}
