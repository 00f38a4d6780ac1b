/**
 The responder's functions as they work on its state in place: each loop is proved to compute what
 the step functions of `Responder` say.
 */
module ResponderTask {
  import opened Bytes
  import opened Lists
  import opened Txt
  import opened Answers
  import opened TxQueue
  import opened Responder
  import opened Protocol
  import opened ProbeSafety
  import opened ServiceRemoval
  import opened Wire

  class Task {
    var now: nat
    var tx: seq<Packet>
    var actions: seq<Action>
    var hand: Option<Action>
    var pcbs: seq<Pcb>
    var hostname: text
    var instance: Option<text>
    var hosts: seq<text>
    var heap: seq<Service>
    var listed: seq<nat>
    var nextId: nat
    ghost var trace: seq<Event>

    constructor (links: nat, at: nat)
      ensures var all := seq(links, _ => Pcb(OFF, [], false, false, 0, false));
              Value() == State(at, [], [], None, all, [], None, [], [], [], 0, [])
    {
      now, tx, actions, hand := at, [], [], None;
      pcbs := seq(links, _ => Pcb(OFF, [], false, false, 0, false));
      hostname, instance, hosts, heap, listed, nextId, trace := [], None, [], [], [], 0, [];
    }

    ghost function Value(): State
      reads this
    {
      State(now, tx, actions, hand, pcbs, hostname, instance, hosts, heap, listed, nextId, trace)
    }

    // -------------------------------------------------------------- the timer

    /** `_mdns_scheduler_run` */
    method SchedulerRun(accepts: seq<bool>)
      modifies this
      ensures Value() == Responder.SchedulerRun(old(Value()), accepts)
    {
      hide Flagged, FlagSoFar;
      var p: nat := FirstUnflagged();
      var more := accepts;
      ghost var done := FlagBegin(tx, actions, p, now, more);
      while p < |tx| && tx[p].sendAt < now
        invariant p <= |tx| && FlagSoFar(tx, actions, p, now, more, done)
        invariant Value() == old(Value()).(tx := tx, actions := actions)
        decreases |tx| - p
      {
        var taken := more != [] && more[0];
        FlagOne(tx, actions, p, now, more, done);
        if taken { actions := actions + [Send(tx[p].id)]; }
        tx := tx[p := tx[p].(queued := taken)];
        p := p + 1;
        more := if more == [] then [] else more[1..];
      }
      FlagDone(tx, actions, p, now, more, done);
    }

    method FirstUnflagged() returns (p: nat)
      ensures p == Flagged(tx)
    {
      p := 0;
      assert tx[0..] == tx;
      while p < |tx| && tx[p].queued
        invariant p <= |tx| && Flagged(tx) == p + Flagged(tx[p..])
      {
        assert tx[p..][1..] == tx[p + 1..];
        p := p + 1;
      }
    }

    // -------------------------------------------------------------- building packets

    /** `_mdns_append_host_list_in_services` */
    method AppendHosts(l: seq<Answer>, ids: seq<nat>, flush: bool) returns (r: seq<Answer>)
      requires InHeap(Value(), ids)
      ensures r == Hosts(Value(), l, ids, flush)
    {
      hide AllocHost, HostItem;
      if ids == [] {
        r := AppendHost(l, HostItem(Some(hostname), ServerNow()), flush);
        return;
      }
      r := l;
      for i := 0 to |ids|
        invariant r == HostRecords(Value(), l, ids, flush, i)
      {
        r := AppendHost(r, HostItem(heap[ids[i]].hostname, ServerNow()), flush);
      }
    }

    function ServerNow(): (s: Server)
      reads this
      ensures s == ServerOf(Value())
    {
      Server(hostname, instance, hosts, [])
    }

    method AppendHost(l: seq<Answer>, host: HostRef, flush: bool) returns (r: seq<Answer>)
      ensures r == AllocHost(l, host, flush)
    {
      r := AllocAnswer(l, TYPE_A, None, host, flush);
      r := AllocAnswer(r, TYPE_AAAA, None, host, flush);
    }

    /** `_mdns_append_host_questions_for_services` */
    method AppendHostQuestions(l: seq<OutQuestion>, ids: seq<nat>, unicast: bool) returns (qs: seq<OutQuestion>)
      requires InHeap(Value(), ids)
      ensures qs == HostQuestions(Value(), l, ids, unicast, |ids|)
    {
      hide AddQuestion;
      qs := l;
      if hostname != [] { qs := AppendQuestion(qs, OwnName, unicast); }
      for i := 0 to |ids|
        invariant qs == HostQuestions(Value(), l, ids, unicast, i)
      {
        var owner := if heap[ids[i]].hostname.Some? then Some(ids[i]) else None;
        qs := AppendQuestion(qs, OfHost(owner), unicast);
      }
    }

    /** `_mdns_create_probe_packet` */
    method CreateProbePacket(link: nat, ids: seq<nat>, first: bool, ip: bool) returns (m: Packet)
      requires InHeap(Value(), ids)
      ensures var s := ProbeSections(Value(), ids, first, ip);
              m == NewPacket(Value(), link, false).(questions := s.questions, servers := s.servers)
    {
      hide Asked, Alloc, HostQuestions, Hosts;
      var qs: seq<OutQuestion>, servers: seq<Answer> := [], [];
      for i := 0 to |ids|
        invariant Sections(qs, servers) == ProbeServices(ids, first, i)
      {
        var exists_already := QuestionExists(qs, OfService(ids[i]));
        if exists_already { continue; }
        qs := qs + [OutQuestion(OfService(ids[i]), first)];
        servers := AllocAnswer(servers, TYPE_SRV, Some(ids[i]), NoHost, false);
      }
      if ip {
        qs := AppendHostQuestions(qs, ids, first);
        servers := AppendHosts(servers, ids, false);
      }
      m := Packet(nextId, link, 0, false, false, false, qs, [], [], servers);
    }

    /** `_mdns_create_announce_from_probe` */
    method CreateAnnounceFromProbe(probe: Packet) returns (m: Packet)
      ensures m == NewPacket(Value(), probe.link, true).(answers := Announced(Value(), probe.servers, |probe.servers|))
    {
      hide Alloc, HostItem;
      var l: seq<Answer> := [];
      for i := 0 to |probe.servers|
        invariant l == Announced(Value(), probe.servers, i)
      {
        var s := probe.servers[i];
        if s.rtype == TYPE_SRV && s.service.Some? && s.service.value < |heap| {
          var id := s.service.value;
          var host := HostItem(heap[id].hostname, ServerNow());
          l := AppendService(l, id);
          l := AllocAnswer(l, TYPE_A, None, host, true);
          l := AllocAnswer(l, TYPE_AAAA, None, host, true);
        } else if s.rtype == TYPE_A || s.rtype == TYPE_AAAA {
          l := AllocAnswer(l, s.rtype, None, s.host, true);
        }
      }
      m := Packet(nextId, probe.link, 0, false, true, false, [], l, [], []);
    }

    // -------------------------------------------------------------- probing

    method Schedule(m: Packet, after: nat)
      modifies this`tx
      ensures Value() == Responder.Schedule(old(Value()), m, after)
    {
      hide Insert;
      tx := Inserted(tx, m.(sendAt := now + after));
    }

    method ScheduleNew(m: Packet, after: nat)
      modifies this`tx, this`nextId
      ensures Value() == Responder.ScheduleNew(old(Value()), m, after)
    {
      hide Insert;
      Schedule(m, after);
      nextId := nextId + 1;
    }

    /**
     * `_mdns_init_pcb_probe_new_service`; where the array has no room for what is copied, `fits` is false and
     * nothing is done.
     */
    method InitPcbProbeNewService(link: nat, ids: seq<nat>, ip: bool, random: nat) returns (fits: bool)
      requires link < |pcbs| && InHeap(Value(), ids) && InHeap(Value(), pcbs[link].services)
      modifies this
      ensures fits == HasRoom(old(pcbs[link]), ids)
      ensures Value() == if fits then StartProbe(old(Value()), link, ids, ip, random) else old(Value())
    {
      var p := pcbs[link];
      var len := |ids| + if Probing(p) then |p.services| else 0;
      var services;
      fits, services := MergeServices(ids, p.services, len);
      if fits {
        assert services == Merged(p, ids);
        BeginProbe(link, services, p.probeIp || ip, random, ids, ip);
      }
    }

    /** The probe packet is made while the link forgets what it was probing for. */
    method ProbePacketAlone(link: nat, services: seq<nat>, probe_ip: bool) returns (packet: Packet)
      requires link < |pcbs| && InHeap(Value(), services)
      modifies this`pcbs
      ensures pcbs == old(pcbs)[link := old(pcbs[link]).(probeIp := false, services := [], running := false)]
      ensures var s := ProbeSections(old(Value()), services, true, probe_ip);
              packet == NewPacket(old(Value()), link, false).(questions := s.questions, servers := s.servers)
    {
      hide ProbeSections;
      pcbs := pcbs[link := pcbs[link].(probeIp := false, services := [], running := false)];
      packet := CreateProbePacket(link, services, true, probe_ip);
      SameSections(old(Value()), Value(), services, true, probe_ip);
    }

    /** The rest of `_mdns_init_pcb_probe_new_service`, when the array of services is made. */
    method BeginProbe(link: nat, services: seq<nat>, probe_ip: bool, random: nat, ghost ids: seq<nat>, ghost ip: bool)
      requires link < |pcbs| && InHeap(Value(), ids) && InHeap(Value(), pcbs[link].services)
      requires services == Merged(pcbs[link], ids) && probe_ip == (pcbs[link].probeIp || ip)
      modifies this
      ensures Value() == StartProbe(old(Value()), link, ids, ip, random)
    {
      hide ProbeSections, Insert, StartProbe, Merged, Probing, InHeap;
      ghost var st := Value();
      var p := pcbs[link];
      MergedInHeap(st, p, ids);
      var packet := ProbePacketAlone(link, services, probe_ip);
      pcbs := pcbs[link := p.(probeIp := probe_ip, services := services, running := true)];
      ScheduleNew(packet, (if p.failed > 5 then 1000 else 120) + random % 128);
      pcbs := pcbs[link := pcbs[link].(state := PROBE_1)];
      trace := trace + [Restarted(link, now, p.failed)];
      StartProbeIs(st, link, ids, ip, random, packet);
    }

    /** `_mdns_clear_pcb_tx_queue_head` */
    method ClearPcbTxQueueHead(link: nat)
      modifies this`tx
      ensures Value() == Drop(old(Value()), link)
    {
      hide Keep;
      var i := 0;
      Whole(tx);
      AndNothing(Keep(tx, OffLink(link)));
      while i < |tx|
        invariant i <= |tx| && tx[..i] + Keep(tx[i..], OffLink(link)) == Keep(old(tx), OffLink(link))
        decreases |tx| - i
      {
        KeepStep(tx, i, OffLink(link));
        if tx[i].link == link { tx := tx[..i] + tx[i + 1..]; } else { i := i + 1; }
      }
      KeepEnd(tx, OffLink(link));
    }

    /** `_mdns_init_pcb_probe` */
    method InitPcbProbe(link: nat, ids: seq<nat>, ip: bool, random: nat) returns (fits: bool)
      requires link < |pcbs| && InHeap(Value(), ids) && InHeap(Value(), pcbs[link].services)
      modifies this
      ensures fits == (old(hostname) == [] || HasRoom(old(pcbs[link]), ids))
      ensures fits ==> Value() == InitProbe(old(Value()), link, ids, ip, random)
    {
      hide StartProbe, WithoutLink, Missing;
      ClearPcbTxQueueHead(link);
      if hostname == [] {
        pcbs := pcbs[link := pcbs[link].(state := RUNNING)];
        return true;
      }
      if Probing(pcbs[link]) {
        var fresh_ids := NotYetProbed(ids, pcbs[link].services);
        MissingInHeap(Value(), ids, pcbs[link].services);
        fits := InitPcbProbeNewService(link, fresh_ids, ip, random);
      } else {
        fits := InitPcbProbeNewService(link, ids, ip, random);
      }
    }

    /** `_mdns_probe_all_pcbs` */
    method ProbeAllPcbs(ids: seq<nat>, ip: bool, clear: bool, randoms: seq<nat>) returns (fits: bool)
      requires |randoms| == |pcbs| && InHeap(Value(), ids) && AllInHeap(Value())
      modifies this
      ensures fits == AllHaveRoom(old(Value()), ids, clear)
      ensures fits ==> Value() == ProbeAll(old(Value()), ids, ip, clear, randoms, 0)
    {
      hide InitProbe;
      var l := 0;
      while l < |pcbs|
        invariant l <= |pcbs| == |old(pcbs)| == |randoms| && InHeap(Value(), ids) && AllInHeap(Value())
        invariant hostname == old(hostname) && forall k :: l <= k < |pcbs| ==> pcbs[k] == old(pcbs)[k]
        invariant hostname == [] || clear || forall k :: 0 <= k < l && old(pcbs)[k].ready ==> HasRoom(old(pcbs)[k], ids)
        invariant ProbeAll(Value(), ids, ip, clear, randoms, l) == ProbeAll(old(Value()), ids, ip, clear, randoms, 0)
      {
        if pcbs[l].ready {
          ghost var was := Value();
          if clear { pcbs := pcbs[l := pcbs[l].(services := [], running := false)]; }
          InitProbeOthers(Value(), l, ids, ip, randoms[l]);
          fits := InitPcbProbe(l, ids, ip, randoms[l]);
          if !fits { return; }
        }
        l := l + 1;
      }
      return true;
    }

    /** `_mdns_restart_all_pcbs` */
    method RestartAllPcbs(randoms: seq<nat>)
      requires |randoms| == |pcbs| && InHeap(Value(), listed) && AllInHeap(Value())
      modifies this
      ensures Value() == RestartAll(old(Value()), randoms)
    {
      hide ProbeAll;
      tx := [];
      var fits := ProbeAllPcbs(listed, true, true, randoms);
      assert fits;
    }

    /** `_mdns_announce_pcb` */
    method AnnouncePcb(link: nat, ids: seq<nat>, ip: bool, random: nat)
      requires link < |pcbs| && InHeap(Value(), ids) && AllInHeap(Value())
      modifies this
      ensures Value() == Announce(old(Value()), link, ids, ip, random)
    {
      hide InitProbe, AnnounceServices, Hosts, Dealloc, Insert, FirstOf;
      if !pcbs[link].ready { return; }
      if Probing(pcbs[link]) {
        var fits := InitPcbProbe(link, ids, ip, random);
        assert fits;
      }
      else if Announcing(pcbs[link]) {
        var k := NextPcbPacket(link);
        if k < |tx| {
          var p := tx[k];
          var answers := AppendServices(p.answers, ids);
          if ip {
            answers := AppendHosts(answers, ids, true);
            var additional := DeallocAnswer(p.additional, TYPE_A, None);
            additional := DeallocAnswer(additional, TYPE_AAAA, None);
            p := p.(additional := additional);
          }
          tx := tx[k := p.(answers := answers)];
          pcbs := pcbs[link := pcbs[link].(state := ANNOUNCE_1)];
        }
      } else if pcbs[link].state == RUNNING {
        if hostname == [] { return; }
        var answers := AppendServices([], ids);
        var servers: seq<Answer> := [];
        if ip { servers := AppendHosts([], ids, true); }
        SameAnnouncement(Value(), Value().(pcbs := pcbs[link := pcbs[link].(state := ANNOUNCE_1)]), ids);
        pcbs := pcbs[link := pcbs[link].(state := ANNOUNCE_1)];
        ScheduleNew(Packet(nextId, link, 0, false, true, false, [], answers, [], servers), 0);
      }
    }

    /** `_mdns_get_next_pcb_packet`, as a place in the list. */
    method NextPcbPacket(link: nat) returns (k: nat)
      ensures k == FirstOf(tx, link)
    {
      k := 0;
      assert tx[0..] == tx;
      while k < |tx| && tx[k].link != link
        invariant k <= |tx| && FirstOf(tx, link) == k + FirstOf(tx[k..], link)
      {
        assert tx[k..][1..] == tx[k + 1..];
        k := k + 1;
      }
    }

    /** `_mdns_enable_pcb` */
    method EnablePcb(link: nat, up: bool, random: nat) returns (fits: bool)
      requires link < |pcbs| && InHeap(Value(), listed) && AllInHeap(Value())
      modifies this
      ensures fits == (!(old(pcbs[link].ready) || up) || old(hostname) == [] || HasRoom(old(pcbs[link]), old(listed)))
      ensures fits ==> Value() == Enable(old(Value()), link, up, random)
    {
      hide InitProbe;
      if !pcbs[link].ready {
        if !up {
          pcbs := pcbs[link := pcbs[link].(failed := 0)];
          return true;
        }
      }
      pcbs := pcbs[link := pcbs[link].(ready := true)];
      fits := InitPcbProbe(link, listed, true, random);
    }

    /** `_mdns_disable_pcb` */
    method DisablePcb(link: nat)
      requires link < |pcbs|
      modifies this`tx, this`pcbs
      ensures Value() == Disable(old(Value()), link)
    {
      if pcbs[link].ready {
        ClearPcbTxQueueHead(link);
        pcbs := pcbs[link := Pcb(OFF, [], false, false, 0, false)];
      }
      pcbs := pcbs[link := pcbs[link].(state := OFF)];
    }

    // -------------------------------------------------------------- a packet goes out

    /** `_mdns_tx_handle_packet` */
    method TxHandlePacket(m: Packet)
      requires m.link < |pcbs|
      modifies this
      ensures Value() == TxHandle(old(Value()), m)
    {
      hide Insert, Announced;
      var p, link := m, m.link;
      if pcbs[link].state == OFF { return; }
      trace := trace + [Sent(link, now, m)];
      var state := pcbs[link].state;
      if state == PROBE_1 {
        var qs := ToMulticast(p.questions);
        p := p.(questions := qs);
      }
      if state == PROBE_1 || state == PROBE_2 {
        Schedule(p, 250);
        pcbs := pcbs[link := pcbs[link].(state := state + 1)];
      } else if state == PROBE_3 {
        AnnounceProbed(p);
      } else if state == ANNOUNCE_1 || state == ANNOUNCE_2 {
        Schedule(p, 1000);
        pcbs := pcbs[link := pcbs[link].(state := state + 1)];
      } else if state == ANNOUNCE_3 {
        pcbs := pcbs[link := pcbs[link].(state := RUNNING)];
      }
    }

    /** The case of the last probe, which turns into the first announcement. */
    method AnnounceProbed(p: Packet)
      requires p.link < |pcbs| && pcbs[p.link].state == PROBE_3
      modifies this
      ensures var st := old(Value()); var m := Announced(st, p.servers, |p.servers|);
              Value() == SetPcb(Responder.ScheduleNew(st, NewPacket(st, p.link, true).(answers := m), 250), p.link,
                                st.pcbs[p.link].(state := ANNOUNCE_1, services := [], probeIp := false,
                                                 running := false, failed := 0))
    {
      hide Insert, Announced;
      var link := p.link;
      var a := CreateAnnounceFromProbe(p);
      pcbs := pcbs[link := pcbs[link].(running := false, probeIp := false, failed := 0, services := [])];
      ScheduleNew(a, 250);
      pcbs := pcbs[link := pcbs[link].(state := pcbs[link].state + 1)];
    }

    /** The case `ACTION_TX_HANDLE` of `_mdns_execute_action`. */
    method ExecuteTxHandle(id: nat)
      requires tx != [] ==> tx[0].link < |pcbs|
      modifies this
      ensures Value() == ExecuteSend(old(Value()), id)
    {
      hide TxHandle;
      hand := None;
      if tx != [] && tx[0].id == id && tx[0].queued {
        var p := tx[0].(queued := false);
        tx := tx[1..];
        TxHandlePacket(p);
      }
    }

    // -------------------------------------------------------------- a service goes

    /** `_mdns_remove_scheduled_service_packets` */
    method RemoveScheduledServicePackets(id: nat)
      requires id < |heap| && OnLinks(tx, |pcbs|)
      modifies this`tx, this`pcbs
      ensures Value() == Removed(old(Value()), id)
    {
      hide Strip, Blank;
      var i := 0;
      ghost var rest := tx;
      assert tx[..0] + RemoveService(old(Value()), rest, pcbs, id).0 == RemoveService(old(Value()), rest, pcbs, id).0;
      while i < |tx|
        invariant i <= |tx| && rest == tx[i..] && |pcbs| == |old(pcbs)| && OnLinks(rest, |pcbs|)
        invariant tx[..i] + RemoveService(old(Value()), rest, pcbs, id).0 ==
                  RemoveService(old(Value()), old(tx), old(pcbs), id).0
        invariant RemoveService(old(Value()), rest, pcbs, id).1 == RemoveService(old(Value()), old(tx), old(pcbs), id).1
        decreases |tx| - i
      {
        ghost var st := old(Value());
        var m, p := StripPacket(tx[i], pcbs[tx[i].link], id, heap, st);
        StripLink(st, tx[i], pcbs[tx[i].link], id);
        assert rest[1..] == tx[i + 1..];
        pcbs := pcbs[m.link := p];
        ghost var after := RemoveService(st, rest[1..], pcbs, id).0;
        if m.questions == [] && m.answers == [] && m.additional == [] && m.servers == [] {
          BlankIs(m);
          tx := tx[..i] + tx[i + 1..];
        } else {
          BlankIs(m);
          tx := tx[i := m];
          JoinOne(tx[..i], m, after);
          assert tx[..i + 1] == tx[..i] + [m];
          i := i + 1;
        }
        rest := rest[1..];
      }
      assert tx[..i] == tx;
    }
  }

  /** The list with `p` behind the packets that are due no later. */
  method Inserted(tx: seq<Packet>, p: Packet) returns (r: seq<Packet>)
    ensures r == Insert(tx, p)
  {
    var k := 0;
    while k < |tx| && tx[k].sendAt <= p.sendAt
      invariant k <= |tx| && forall i :: 0 <= i < k ==> tx[i].sendAt <= p.sendAt
    {
      k := k + 1;
    }
    PositionIs(tx, p.sendAt, k);
    hide Position;
    return tx[..k] + [p] + tx[k..];
  }

  /** One packet of a filtering walk goes, or is stepped over. */
  lemma KeepStep(tx: seq<Packet>, i: nat, f: Filter)
    requires i < |tx|
    ensures var r := tx[..i] + tx[i + 1..];
            tx[..i] + Keep(tx[i..], f) ==
              if Passes(tx[i], f) then tx[..i + 1] + Keep(tx[i + 1..], f) else r[..i] + Keep(r[i..], f)
  {
    Around(tx, i);
    KeepFirst(tx[i..], f);
    hide Keep, Passes;
    if Passes(tx[i], f) { Assoc(tx[..i], [tx[i]], Keep(tx[i + 1..], f)); }
    else { Joined(tx[..i], tx[i + 1..]); }
  }

  lemma KeepEnd(tx: seq<Packet>, f: Filter)
    ensures tx[..|tx|] + Keep(tx[|tx|..], f) == tx
  {
    Whole(tx);
    AndNothing(tx);
  }

  lemma BlankIs(m: Packet)
    ensures Blank(m) <==> m.questions == [] && m.answers == [] && m.additional == [] && m.servers == []
  {
  }

  lemma JoinOne(a: seq<Packet>, m: Packet, b: seq<Packet>)
    ensures a + ([m] + b) == (a + [m]) + b
  {
  }

  lemma MergedInHeap(st: State, p: Pcb, ids: seq<nat>)
    requires InHeap(st, ids) && InHeap(st, p.services)
    ensures InHeap(st, Merged(p, ids))
  {
  }

  lemma StartProbeIs(st: State, link: nat, ids: seq<nat>, ip: bool, random: nat, packet: Packet)
    requires link < |st.pcbs| && InHeap(st, ids) && InHeap(st, st.pcbs[link].services)
    requires var p := st.pcbs[link]; var s := ProbeSections(st, Merged(p, ids), true, p.probeIp || ip);
             packet == NewPacket(st, link, false).(questions := s.questions, servers := s.servers)
    ensures var p := st.pcbs[link];
            var at := st.now + (if p.failed > 5 then 1000 else 120) + random % 128;
            StartProbe(st, link, ids, ip, random) ==
              st.(tx := Insert(st.tx, packet.(sendAt := at)), nextId := st.nextId + 1,
                  pcbs := st.pcbs[link := p.(state := PROBE_1, services := Merged(p, ids), probeIp := p.probeIp || ip,
                                            running := true)],
                  trace := st.trace + [Restarted(link, st.now, p.failed)])
  {
    hide ProbeSections, Insert;
  }

  /** What a packet proposes depends on names only. */
  lemma SameSections(st: State, r: State, ids: seq<nat>, first: bool, ip: bool)
    requires InHeap(st, ids) && r.heap == st.heap && ServerOf(r) == ServerOf(st)
    ensures ProbeSections(r, ids, first, ip) == ProbeSections(st, ids, first, ip)
  {
    var s := ProbeServices(ids, first, |ids|);
    SameQuestions(st, r, s.questions, ids, first, |ids|);
    SameRecords(st, r, s.servers, ids, false, |ids|);
  }

  lemma {:induction false} SameRecords(st: State, r: State, l: seq<Answer>, ids: seq<nat>, flush: bool, n: nat)
    requires n <= |ids| && InHeap(st, ids) && r.heap == st.heap && ServerOf(r) == ServerOf(st)
    ensures HostRecords(r, l, ids, flush, n) == HostRecords(st, l, ids, flush, n)
  {
    hide AllocHost, HostItem;
    if n > 0 { SameRecords(st, r, l, ids, flush, n - 1); }
  }

  lemma {:induction false} SameQuestions(st: State, r: State, qs: seq<OutQuestion>, ids: seq<nat>, first: bool, n: nat)
    requires n <= |ids| && InHeap(st, ids) && r.heap == st.heap && ServerOf(r) == ServerOf(st)
    ensures HostQuestions(r, qs, ids, first, n) == HostQuestions(st, qs, ids, first, n)
  {
    hide AddQuestion;
    if n > 0 { SameQuestions(st, r, qs, ids, first, n - 1); }
  }

  /** A start on one link leaves the others alone. */
  lemma InitProbeOthers(st: State, l: nat, ids: seq<nat>, ip: bool, random: nat)
    requires l < |st.pcbs| && InHeap(st, ids) && AllInHeap(st)
    ensures var r := InitProbe(st, l, ids, ip, random);
            |r.pcbs| == |st.pcbs| && r.heap == st.heap && AllInHeap(r)
            && forall k :: 0 <= k < |st.pcbs| && k != l ==> r.pcbs[k] == st.pcbs[k]
  {
    MissingInHeap(st, ids, st.pcbs[l].services);
  }

  // ---------------------------------------------------------------- loops over lists

  /** `_mdns_question_exists` */
  method QuestionExists(qs: seq<OutQuestion>, subject: Subject) returns (found: bool)
    ensures found == Asked(qs, subject)
  {
    for i := 0 to |qs|
      invariant forall k :: 0 <= k < i ==> qs[k].subject != subject
    {
      if qs[i].subject == subject { return true; }
    }
    return false;
  }

  method AppendQuestion(qs: seq<OutQuestion>, subject: Subject, unicast: bool) returns (r: seq<OutQuestion>)
    ensures r == AddQuestion(qs, subject, unicast)
  {
    var found := QuestionExists(qs, subject);
    return if found then qs else qs + [OutQuestion(subject, unicast)];
  }

  method AppendService(l: seq<Answer>, id: nat) returns (r: seq<Answer>)
    ensures r == AnnounceService(l, id)
  {
    r := AllocAnswer(l, TYPE_SDPTR, Some(id), NoHost, false);
    r := AllocAnswer(r, TYPE_PTR, Some(id), NoHost, false);
    r := AllocAnswer(r, TYPE_SRV, Some(id), NoHost, true);
    r := AllocAnswer(r, TYPE_TXT, Some(id), NoHost, true);
  }

  method AppendServices(l: seq<Answer>, ids: seq<nat>) returns (r: seq<Answer>)
    ensures r == AnnounceServices(l, ids, |ids|)
  {
    hide AnnounceService;
    r := l;
    for i := 0 to |ids|
      invariant r == AnnounceServices(l, ids, i)
    {
      r := AppendService(r, ids[i]);
    }
  }

  predicate Matches(a: Answer, rtype: nat, service: Option<nat>) {
    a.rtype == rtype && a.service == service
  }

  /** `_mdns_dealloc_answer` */
  method DeallocAnswer(l: seq<Answer>, rtype: nat, service: Option<nat>) returns (r: seq<Answer>)
    ensures r == Dealloc(l, rtype, service)
  {
    hide Dealloc;
    for i := 0 to |l|
      invariant forall k :: 0 <= k < i ==> !Matches(l[k], rtype, service)
    {
      if l[i].rtype == rtype && l[i].service == service {
        DeallocAt(l, rtype, service, i);
        return l[..i] + l[i + 1..];
      }
    }
    DeallocAt(l, rtype, service, |l|);
    return l;
  }

  lemma DeallocFirst(l: seq<Answer>, rtype: nat, service: Option<nat>)
    requires l != []
    ensures Dealloc(l, rtype, service) ==
            if Matches(l[0], rtype, service) then l[1..] else [l[0]] + Dealloc(l[1..], rtype, service)
  {
  }

  lemma {:induction false} DeallocAt(l: seq<Answer>, rtype: nat, service: Option<nat>, i: nat)
    requires i <= |l| && (forall k :: 0 <= k < i ==> !Matches(l[k], rtype, service))
    requires i < |l| ==> Matches(l[i], rtype, service)
    ensures Dealloc(l, rtype, service) == if i < |l| then l[..i] + l[i + 1..] else l
  {
    if i > 0 {
      assert !Matches(l[0], rtype, service);
      assert forall k :: 0 <= k < i - 1 ==> l[1..][k] == l[k + 1];
      DeallocAt(l[1..], rtype, service, i - 1);
      DeallocFirst(l, rtype, service);
      hide Dealloc, Matches;
      if i < |l| { TakenOut(l, i); } else { Around(l, 0); Whole(l); }
    } else if l != [] {
      DeallocFirst(l, rtype, service);
      Whole(l);
      AndNothing(l[1..]);
    }
  }

  lemma SameAnnouncement(st: State, r: State, ids: seq<nat>)
    requires InHeap(st, ids) && r.heap == st.heap && ServerOf(r) == ServerOf(st)
    ensures Hosts(r, [], ids, true) == Hosts(st, [], ids, true)
  {
    SameRecords(st, r, [], ids, true, |ids|);
  }

  method ToMulticast(qs: seq<OutQuestion>) returns (r: seq<OutQuestion>)
    ensures r == Multicast(qs)
  {
    r := qs;
    for i := 0 to |qs|
      invariant |r| == |qs| && r[i..] == qs[i..]
      invariant forall k :: 0 <= k < i ==> r[k] == qs[k].(unicast := false)
    {
      r := r[i := r[i].(unicast := false)];
    }
  }

  /** The array for a new start, with room for `len` services; `fits` tells whether all that is copied stays within. */
  method MergeServices(ids: seq<nat>, probed: seq<nat>, len: nat) returns (fits: bool, all: seq<nat>)
    requires |ids| <= len <= |ids| + |probed|
    ensures fits == (len == 0 || |ids| + |probed| <= len)
    ensures fits ==> all == if len == 0 then [] else ids + probed
  {
    if len == 0 { return true, []; }
    if len < |ids| + |probed| { return false, []; }
    var services := new nat[len];
    for i := 0 to |ids|
      invariant services[..i] == ids[..i]
    {
      services[i] := ids[i];
    }
    for i := 0 to |probed|
      invariant services[..|ids| + i] == ids + probed[..i]
    {
      services[|ids| + i] := probed[i];
    }
    return true, services[..];
  }

  /** The requested services that are not being probed for. */
  method NotYetProbed(ids: seq<nat>, probed: seq<nat>) returns (r: seq<nat>)
    ensures r == Missing(ids, probed)
  {
    hide Missing;
    r := [];
    assert ids[0..] == ids;
    MissingNone(probed);
    for j := 0 to |ids|
      invariant r + Missing(ids[j..], probed) == Missing(ids, probed)
    {
      var i := FindService(probed, ids[j]);
      MissingStep(ids[j..], probed);
      assert ids[j..][1..] == ids[j + 1..];
      if i == |probed| {
        assert !Held(probed, ids[j]);
        r := r + [ids[j]];
      } else {
        assert Held(probed, ids[j]);
      }
    }
  }

  lemma MissingNone(had: seq<nat>)
    ensures Missing([], had) == []
  {
  }

  lemma MissingStep(ids: seq<nat>, had: seq<nat>)
    requires ids != []
    ensures Missing(ids, had) == (if Held(had, ids[0]) then [] else [ids[0]]) + Missing(ids[1..], had)
  {
  }

  /** `_mdns_dealloc_scheduled_service_answers` */
  method DeallocServiceAnswers(l: seq<Answer>, id: nat) returns (r: seq<Answer>)
    ensures r == Without(l, id)
  {
    hide Without;
    r := l;
    var i := 0;
    Whole(r);
    AndNothing(Without(r, id));
    while i < |r|
      invariant i <= |r| && r[..i] + Without(r[i..], id) == Without(l, id)
      decreases |r| - i
    {
      WithoutStep(r, i, id);
      if r[i].service == Some(id) { r := r[..i] + r[i + 1..]; } else { i := i + 1; }
    }
    WithoutEnd(r, id);
  }

  lemma WithoutStep(l: seq<Answer>, i: nat, id: nat)
    requires i < |l|
    ensures var r := l[..i] + l[i + 1..];
            l[..i] + Without(l[i..], id) ==
              if l[i].service == Some(id) then r[..i] + Without(r[i..], id) else l[..i + 1] + Without(l[i + 1..], id)
  {
    Around(l, i);
    WithoutFirst(l[i..], id);
    hide Without;
    if l[i].service == Some(id) { Joined(l[..i], l[i + 1..]); }
    else { Assoc(l[..i], [l[i]], Without(l[i + 1..], id)); }
  }

  lemma WithoutFirst(l: seq<Answer>, id: nat)
    requires l != []
    ensures Without(l, id) == if l[0].service == Some(id) then Without(l[1..], id) else [l[0]] + Without(l[1..], id)
  {
  }

  lemma WithoutEnd(l: seq<Answer>, id: nat)
    ensures l[..|l|] + Without(l[|l|..], id) == l
  {
    Whole(l);
    AndNothing(l);
  }

  method StrikeService(ids: seq<nat>, id: nat, at: nat) returns (r: seq<nat>)
    requires at < |ids| && ids[at] == id && forall k :: 0 <= k < at ==> ids[k] != id
    ensures r == Strike(ids, id)
  {
    r := ids;
    for n := at + 1 to |ids|
      invariant |r| == |ids| && (forall k :: 0 <= k < at ==> r[k] == ids[k])
      invariant forall k :: at <= k < n - 1 ==> r[k] == ids[k + 1]
      invariant forall k :: n <= k < |ids| ==> r[k] == ids[k]
    {
      r := r[n - 1 := r[n]];
    }
    r := r[..|ids| - 1];
    StrikeAt(ids, id, at);
    assert r == ids[..at] + ids[at + 1..];
  }

  lemma {:induction false} StrikeAt(ids: seq<nat>, id: nat, at: nat)
    requires at < |ids| && ids[at] == id && forall k :: 0 <= k < at ==> ids[k] != id
    ensures Strike(ids, id) == ids[..at] + ids[at + 1..]
  {
    if at > 0 {
      assert ids[0] != id;
      assert forall k :: 0 <= k < at - 1 ==> ids[1..][k] == ids[k + 1];
      StrikeAt(ids[1..], id, at - 1);
      TakenOut(ids, at);
    }
  }

  method FindService(ids: seq<nat>, id: nat) returns (i: nat)
    ensures i <= |ids| && (i < |ids| ==> ids[i] == id) && forall k :: 0 <= k < i ==> ids[k] != id
  {
    i := 0;
    while i < |ids| && ids[i] != id
      invariant i <= |ids| && forall k :: 0 <= k < i ==> ids[k] != id
    {
      i := i + 1;
    }
  }

  method UnaskFirst(qs: seq<OutQuestion>, id: nat, heap: seq<Service>, ghost st: State) returns (r: seq<OutQuestion>)
    requires id < |heap| && st.heap == heap
    ensures r == Unask(st, qs, id)
  {
    hide Unask;
    Whole(qs);
    AndNothing(Unask(st, qs, id));
    for i := 0 to |qs|
      invariant qs[..i] + Unask(st, qs[i..], id) == Unask(st, qs, id)
    {
      UnaskStep(st, qs, i, id);
      if IsSameType(qs[i].subject, heap[id], heap) { return qs[..i] + qs[i + 1..]; }
    }
    UnaskNone(st, qs, id);
    return qs;
  }

  lemma UnaskStep(st: State, qs: seq<OutQuestion>, i: nat, id: nat)
    requires id < |st.heap| && i < |qs|
    ensures qs[..i] + Unask(st, qs[i..], id) ==
            if SameType(st, qs[i].subject, st.heap[id]) then qs[..i] + qs[i + 1..]
            else qs[..i + 1] + Unask(st, qs[i + 1..], id)
  {
    Around(qs, i);
    UnaskFront(st, qs[i..], id);
    hide Unask, SameType;
    Assoc(qs[..i], [qs[i]], Unask(st, qs[i + 1..], id));
  }

  lemma UnaskFront(st: State, qs: seq<OutQuestion>, id: nat)
    requires id < |st.heap| && qs != []
    ensures Unask(st, qs, id) ==
            if SameType(st, qs[0].subject, st.heap[id]) then qs[1..] else [qs[0]] + Unask(st, qs[1..], id)
  {
  }

  lemma UnaskNone(st: State, qs: seq<OutQuestion>, id: nat)
    requires id < |st.heap|
    ensures qs[..|qs|] + Unask(st, qs[|qs|..], id) == qs
  {
    Whole(qs);
    AndNothing(qs);
  }

  function IsSameType(subject: Subject, s: Service, heap: seq<Service>): bool {
    match subject
    case OfService(j) => j < |heap| && heap[j].service == s.service && heap[j].proto == s.proto
    case Echoed(qtype, service, proto) => qtype == TYPE_ANY && service == Some(s.service) && proto == Some(s.proto)
    case _ => false
  }

  /** One packet of the walk, and what becomes of its link. */
  method StripPacket(q: Packet, pcb: Pcb, id: nat, heap: seq<Service>, ghost st: State) returns (m: Packet, p: Pcb)
    requires id < |heap| && st.heap == heap
    ensures (m, p) == Strip(st, q, pcb, id)
  {
    hide Without, Strike, Unask;
    m, p := q, pcb;
    var had_answers := m.answers != [];
    var answers := DeallocServiceAnswers(m.answers, id);
    var additional := DeallocServiceAnswers(m.additional, id);
    var servers := DeallocServiceAnswers(m.servers, id);
    m := m.(answers := answers, additional := additional, servers := servers);
    if !p.ready { return; }
    if Probing(p) {
      var i := FindService(p.services, id);
      if i < |p.services| {
        assert Held(p.services, id);
        if |p.services| > 1 {
          var left := StrikeService(p.services, id, i);
          p := p.(services := left);
        } else {
          p := p.(services := []);
          if !p.probeIp { p := p.(running := false, state := RUNNING); }
        }
        var questions := UnaskFirst(m.questions, id, heap, st);
        m := m.(questions := questions);
      }
    } else if Announcing(p) {
      if had_answers && m.answers == [] { p := p.(state := RUNNING); }
    }
  }

  /** From `p` on the packets are still to be flagged; the run ends with `done`. */
  ghost predicate FlagSoFar(tx: seq<Packet>, actions: seq<Action>, p: nat, now: nat, more: seq<bool>,
                            done: (seq<Packet>, seq<Action>))
  {
    p <= |tx| && var rest := Flag(tx[p..], now, more); done == (tx[..p] + rest.0, actions + rest.1)
  }

  lemma FlagBegin(tx: seq<Packet>, actions: seq<Action>, p: nat, now: nat, more: seq<bool>)
    returns (done: (seq<Packet>, seq<Action>))
    requires p <= |tx|
    ensures FlagSoFar(tx, actions, p, now, more, done)
    ensures var rest := Flag(tx[p..], now, more); done == (tx[..p] + rest.0, actions + rest.1)
  {
    hide Flag;
    var rest := Flag(tx[p..], now, more);
    done := (tx[..p] + rest.0, actions + rest.1);
  }

  lemma FlagOne(tx: seq<Packet>, actions: seq<Action>, p: nat, now: nat, more: seq<bool>,
      done: (seq<Packet>, seq<Action>))
    requires FlagSoFar(tx, actions, p, now, more, done) && p < |tx| && tx[p].sendAt < now
    ensures var taken := more != [] && more[0];
            var next := if taken then actions + [Send(tx[p].id)] else actions;
            FlagSoFar(tx[p := tx[p].(queued := taken)], next, p + 1, now, if more == [] then [] else more[1..], done)
  {
    var taken, tail := more != [] && more[0], if more == [] then [] else more[1..];
    FlagStep(tx, p, now, more);
    var rest := Flag(tx[p + 1..], now, tail);
    hide Flag;
    var m := tx[p].(queued := taken);
    var r := tx[p := m];
    assert r[p + 1..] == tx[p + 1..];
    OneMore(tx, p, m, rest.0);
    var one: seq<Action> := [Send(tx[p].id)];
    assert actions + (one + rest.1) == (actions + one) + rest.1;
  }

  lemma FlagStep(tx: seq<Packet>, p: nat, now: nat, more: seq<bool>)
    requires p < |tx| && tx[p].sendAt < now
    ensures var taken := more != [] && more[0];
            var rest := Flag(tx[p + 1..], now, if more == [] then [] else more[1..]);
            Flag(tx[p..], now, more) ==
              ([tx[p].(queued := taken)] + rest.0, if taken then [Send(tx[p].id)] + rest.1 else rest.1)
  {
    assert tx[p..][1..] == tx[p + 1..] && tx[p..][0] == tx[p];
  }

  lemma OneMore(tx: seq<Packet>, p: nat, m: Packet, rest: seq<Packet>)
    requires p < |tx|
    ensures tx[..p] + ([m] + rest) == tx[p := m][..p + 1] + rest
  {
    var one: seq<Packet> := [m];
    assert tx[p := m][..p + 1] == tx[..p] + one;
  }

  lemma FlagDone(tx: seq<Packet>, actions: seq<Action>, p: nat, now: nat, more: seq<bool>,
      done: (seq<Packet>, seq<Action>))
    requires FlagSoFar(tx, actions, p, now, more, done) && (p < |tx| ==> tx[p].sendAt >= now)
    ensures done == (tx, actions)
  {
    assert Flag(tx[p..], now, more) == (tx[p..], []);
    assert tx[..p] + tx[p..] == tx && actions + [] == actions;
  }
}
