/**
 The responder as a machine of steps: a timer that flags due packets and posts one action each, a
 service task that takes the actions one by one, and calls that may come between any two of them,
 each holding the lock for the whole of its step. Every link (a pair of interface and IP protocol)
 probes for its names, announces them, and then runs (sections 8.1 to 8.3 of RFC 6762).
 */
module Responder {
  import opened Bytes
  import opened Txt
  import opened Answers
  import opened TxQueue
  import opened Wire

  const OFF: nat := 0
  const PROBE_1: nat := 3
  const PROBE_2: nat := 4
  const PROBE_3: nat := 5
  const ANNOUNCE_1: nat := 6
  const ANNOUNCE_2: nat := 7
  const ANNOUNCE_3: nat := 8
  const RUNNING: nat := 9

  /** `mdns_pcb_t` of a link, with the readiness of its socket. Services are named by identity. */
  datatype Pcb = Pcb(state: nat, services: seq<nat>, probeIp: bool, running: bool, failed: nat, ready: bool)

  datatype Action = Send(id: nat) | Other

  /** What a run leaves to be told: probing began anew, or a packet went out. */
  datatype Event = Restarted(link: nat, at: nat, failed: nat)
                 | Sent(link: nat, at: nat, packet: Packet)

  /**
   * `heap` holds every service ever made, at its identity; `listed` are the registered ones. The
   * action that the service task has taken but not yet finished is in `hand`.
   */
  datatype State = State(now: nat, tx: seq<Packet>, actions: seq<Action>, hand: Option<Action>, pcbs: seq<Pcb>,
                         hostname: text, instance: Option<text>, hosts: seq<text>,
                         heap: seq<Service>, listed: seq<nat>, nextId: nat, trace: seq<Event>)

  predicate Probing(p: Pcb) {
    OFF < p.state < ANNOUNCE_1
  }

  predicate Announcing(p: Pcb) {
    PROBE_3 < p.state < RUNNING
  }

  /** Service identities are those of the heap. */
  predicate InHeap(st: State, ids: seq<nat>) {
    forall i :: 0 <= i < |ids| ==> ids[i] < |st.heap|
  }

  function ServerOf(st: State): Server {
    Server(st.hostname, st.instance, st.hosts, [])
  }

  // ---------------------------------------------------------------- building packets

  predicate Asked(qs: seq<OutQuestion>, subject: Subject) {
    exists i :: 0 <= i < |qs| && qs[i].subject == subject
  }

  function AddQuestion(qs: seq<OutQuestion>, subject: Subject, unicast: bool): seq<OutQuestion> {
    if Asked(qs, subject) then qs else qs + [OutQuestion(subject, unicast)]
  }

  /** The host name of a service, as the object the question borrows. */
  function HostSubject(st: State, id: nat): Subject
    requires id < |st.heap|
  {
    if st.heap[id].hostname.Some? then OfHost(Some(id)) else OfHost(None)
  }

  datatype Sections = Sections(questions: seq<OutQuestion>, servers: seq<Answer>)

  /** The first `n` services of a probe: one question and one record each. */
  function ProbeServices(ids: seq<nat>, first: bool, n: nat): Sections
    requires n <= |ids|
    decreases n
  {
    if n == 0 then Sections([], [])
    else
      var s := ProbeServices(ids, first, n - 1);
      if Asked(s.questions, OfService(ids[n - 1])) then s
      else Sections(s.questions + [OutQuestion(OfService(ids[n - 1]), first)],
                    Alloc(s.servers, TYPE_SRV, Some(ids[n - 1]), NoHost, false))
  }

  function HostQuestions(st: State, qs: seq<OutQuestion>, ids: seq<nat>, first: bool, n: nat): seq<OutQuestion>
    requires n <= |ids| && InHeap(st, ids)
    decreases n
  {
    if n == 0 then (if st.hostname == [] then qs else AddQuestion(qs, OwnName, first))
    else AddQuestion(HostQuestions(st, qs, ids, first, n - 1), HostSubject(st, ids[n - 1]), first)
  }

  /** `_mdns_append_host_list_in_services`, short of the case without services. */
  function HostRecords(st: State, l: seq<Answer>, ids: seq<nat>, flush: bool, n: nat): seq<Answer>
    requires n <= |ids| && InHeap(st, ids)
    decreases n
  {
    if n == 0 then l
    else AllocHost(HostRecords(st, l, ids, flush, n - 1), HostItem(st.heap[ids[n - 1]].hostname, ServerOf(st)), flush)
  }

  function Hosts(st: State, l: seq<Answer>, ids: seq<nat>, flush: bool): seq<Answer>
    requires InHeap(st, ids)
  {
    if ids == [] then AllocHost(l, HostItem(Some(st.hostname), ServerOf(st)), flush)
    else HostRecords(st, l, ids, flush, |ids|)
  }

  /** `_mdns_create_probe_packet` */
  function ProbeSections(st: State, ids: seq<nat>, first: bool, ip: bool): Sections
    requires InHeap(st, ids)
  {
    var s := ProbeServices(ids, first, |ids|);
    if ip then Sections(HostQuestions(st, s.questions, ids, first, |ids|), Hosts(st, s.servers, ids, false)) else s
  }

  /** The four records that announce a service. */
  function AnnounceService(l: seq<Answer>, id: nat): seq<Answer> {
    var l := Alloc(Alloc(l, TYPE_SDPTR, Some(id), NoHost, false), TYPE_PTR, Some(id), NoHost, false);
    Alloc(Alloc(l, TYPE_SRV, Some(id), NoHost, true), TYPE_TXT, Some(id), NoHost, true)
  }

  function AnnounceServices(l: seq<Answer>, ids: seq<nat>, n: nat): seq<Answer>
    requires n <= |ids|
    decreases n
  {
    if n == 0 then l else AnnounceService(AnnounceServices(l, ids, n - 1), ids[n - 1])
  }

  /** `_mdns_create_announce_from_probe`: what the first `n` records of the probe become. */
  function Announced(st: State, servers: seq<Answer>, n: nat): seq<Answer>
    requires n <= |servers|
    decreases n
  {
    if n == 0 then []
    else
      var l := Announced(st, servers, n - 1);
      var a := servers[n - 1];
      if a.rtype == TYPE_SRV && a.service.Some? && a.service.value < |st.heap| then
        var host := HostItem(st.heap[a.service.value].hostname, ServerOf(st));
        Alloc(Alloc(AnnounceService(l, a.service.value), TYPE_A, None, host, true), TYPE_AAAA, None, host, true)
      else if a.rtype == TYPE_A || a.rtype == TYPE_AAAA then Alloc(l, a.rtype, None, a.host, true)
      else l
  }

  /** `_mdns_dealloc_answer` for a record without service: the first one goes. */
  function Dealloc(l: seq<Answer>, rtype: nat, service: Option<nat>): seq<Answer> {
    if l == [] then []
    else if l[0].rtype == rtype && l[0].service == service then l[1..]
    else [l[0]] + Dealloc(l[1..], rtype, service)
  }

  function NewPacket(st: State, link: nat, response: bool): Packet {
    Packet(st.nextId, link, 0, false, response, false, [], [], [], [])
  }

  // ---------------------------------------------------------------- parts of steps

  function SetPcb(st: State, link: nat, p: Pcb): State
    requires link < |st.pcbs|
  {
    st.(pcbs := st.pcbs[link := p])
  }

  function Drop(st: State, link: nat): State {
    st.(tx := WithoutLink(st.tx, link))
  }

  function Schedule(st: State, p: Packet, after: nat): State {
    st.(tx := Insert(st.tx, p.(sendAt := st.now + after)))
  }

  /** A packet made in this step is scheduled; it takes the next identity. */
  function ScheduleNew(st: State, p: Packet, after: nat): State {
    Schedule(st, p, after).(nextId := st.nextId + 1)
  }

  function Tell(st: State, e: Event): State {
    st.(trace := st.trace + [e])
  }

  /** The services of `ids` that are not in `had`, in their order. */
  function Missing(ids: seq<nat>, had: seq<nat>): seq<nat> {
    if ids == [] then [] else (if Held(had, ids[0]) then [] else [ids[0]]) + Missing(ids[1..], had)
  }

  predicate Held(ids: seq<nat>, id: nat) {
    exists i :: 0 <= i < |ids| && ids[i] == id
  }

  /** The array of services after a probe start: `ids`, and behind them the ones already probed. */
  function Merged(p: Pcb, ids: seq<nat>): seq<nat> {
    if Probing(p) then ids + p.services else ids
  }

  /** Entries a start allots for the array of services, and entries it then writes. */
  function Allotted(p: Pcb, ids: seq<nat>): nat {
    if Probing(p) then |ids| + |p.services| else |ids|
  }

  function Copied(p: Pcb, ids: seq<nat>): nat {
    if Allotted(p, ids) == 0 then 0 else |ids| + |p.services|
  }

  predicate HasRoom(p: Pcb, ids: seq<nat>) {
    Copied(p, ids) <= Allotted(p, ids)
  }

  /** Every start of `_mdns_probe_all_pcbs` stays within the array it allots. */
  predicate AllHaveRoom(st: State, ids: seq<nat>, clear: bool) {
    st.hostname == [] || clear || forall l :: 0 <= l < |st.pcbs| && st.pcbs[l].ready ==> HasRoom(st.pcbs[l], ids)
  }

  function FirstDelay(p: Pcb, random: nat): nat {
    (if p.failed > 5 then 1000 else 120) + random % 128
  }

  /** `_mdns_init_pcb_probe_new_service` */
  function StartProbe(st: State, link: nat, ids: seq<nat>, ip: bool, random: nat): State
    requires link < |st.pcbs| && InHeap(st, ids) && InHeap(st, st.pcbs[link].services)
  {
    var p := st.pcbs[link];
    var all := Merged(p, ids);
    var ip := p.probeIp || ip;
    var s := ProbeSections(st, all, true, ip);
    var packet := NewPacket(st, link, false).(questions := s.questions, servers := s.servers);
    var st := ScheduleNew(st, packet, FirstDelay(p, random));
    var st := SetPcb(st, link, p.(state := PROBE_1, services := all, probeIp := ip, running := true));
    Tell(st, Restarted(link, st.now, p.failed))
  }

  /** `_mdns_init_pcb_probe` */
  function InitProbe(st: State, link: nat, ids: seq<nat>, ip: bool, random: nat): (r: State)
    requires link < |st.pcbs| && InHeap(st, ids) && InHeap(st, st.pcbs[link].services)
    ensures r.heap == st.heap && r.hostname == st.hostname && |r.pcbs| == |st.pcbs|
    ensures AllInHeap(st) ==> AllInHeap(r)
  {
    var p := st.pcbs[link];
    var st := Drop(st, link);
    if st.hostname == [] then SetPcb(st, link, p.(state := RUNNING))
    else
      MissingInHeap(st, ids, p.services);
      StartProbe(st, link, if Probing(p) then Missing(ids, p.services) else ids, ip, random)
  }

  lemma MissingInHeap(st: State, ids: seq<nat>, had: seq<nat>)
    requires InHeap(st, ids)
    ensures InHeap(st, Missing(ids, had))
  {
    MissingFrom(ids, had);
  }

  lemma {:induction false} MissingFrom(ids: seq<nat>, had: seq<nat>)
    ensures forall i :: 0 <= i < |Missing(ids, had)| ==>
            Held(ids, Missing(ids, had)[i]) && !Held(had, Missing(ids, had)[i])
    ensures forall i :: 0 <= i < |ids| && !Held(had, ids[i]) ==> Held(Missing(ids, had), ids[i])
  {
    if ids != [] {
      MissingFrom(ids[1..], had);
      var m, t := Missing(ids, had), Missing(ids[1..], had);
      var d := |m| - |t|;
      forall i | 0 <= i < |m| ensures Held(ids, m[i]) && !Held(had, m[i]) {
        if i >= d {
          assert m[i] == t[i - d];
          var j :| 0 <= j < |ids[1..]| && ids[1..][j] == t[i - d];
          assert ids[j + 1] == m[i];
        }
      }
      forall i | 0 <= i < |ids| && !Held(had, ids[i]) ensures Held(m, ids[i]) {
        if i == 0 { assert m[0] == ids[0]; }
        else {
          assert ids[1..][i - 1] == ids[i];
          var j :| 0 <= j < |t| && t[j] == ids[i];
          assert m[j + d] == ids[i];
        }
      }
    }
  }

  /** Every link that is ready starts a probe, from link `i` on; `clear` forgets what was being probed. */
  function ProbeAll(st: State, ids: seq<nat>, ip: bool, clear: bool, randoms: seq<nat>, i: nat): State
    requires i <= |st.pcbs| == |randoms| && InHeap(st, ids) && AllInHeap(st)
    decreases |st.pcbs| - i
  {
    if i == |st.pcbs| then st
    else
      var s := if clear then Forget(st, i) else st;
      var next := if st.pcbs[i].ready then InitProbe(s, i, ids, ip, randoms[i]) else st;
      ProbeAll(next, ids, ip, clear, randoms, i + 1)
  }

  predicate AllInHeap(st: State) {
    forall l :: 0 <= l < |st.pcbs| ==> InHeap(st, st.pcbs[l].services)
  }

  function Forget(st: State, link: nat): State
    requires link < |st.pcbs|
  {
    SetPcb(st, link, st.pcbs[link].(services := [], running := false))
  }

  /** `_mdns_restart_all_pcbs` */
  function RestartAll(st: State, randoms: seq<nat>): State
    requires |st.pcbs| == |randoms| && InHeap(st, st.listed) && AllInHeap(st)
  {
    ProbeAll(st.(tx := []), st.listed, true, true, randoms, 0)
  }

  /** The registered services without instance name. */
  function Nameless(st: State, ids: seq<nat>): (r: seq<nat>)
    requires InHeap(st, ids)
    ensures InHeap(st, r)
  {
    if ids == [] then []
    else (if st.heap[ids[0]].instance.None? then [ids[0]] else []) + Nameless(st, ids[1..])
  }

  /** `_mdns_restart_all_pcbs_no_instance` */
  function RestartNameless(st: State, randoms: seq<nat>): State
    requires |st.pcbs| == |randoms| && InHeap(st, st.listed) && AllInHeap(st)
  {
    var ids := Nameless(st, st.listed);
    if ids == [] then st else ProbeAll(st, ids, false, true, randoms, 0)
  }

  /** The first packet of a link, or the length of the list. */
  function FirstOf(tx: seq<Packet>, link: nat): (k: nat)
    ensures k <= |tx| && (k < |tx| ==> tx[k].link == link) && forall i :: 0 <= i < k ==> tx[i].link != link
  {
    if tx == [] || tx[0].link == link then 0 else FirstOf(tx[1..], link) + 1
  }

  /** `_mdns_announce_pcb` */
  function Announce(st: State, link: nat, ids: seq<nat>, ip: bool, random: nat): State
    requires link < |st.pcbs| && InHeap(st, ids) && AllInHeap(st)
  {
    var p := st.pcbs[link];
    if !p.ready then st
    else if Probing(p) then InitProbe(st, link, ids, ip, random)
    else if Announcing(p) then
      var k := FirstOf(st.tx, link);
      if k == |st.tx| then st
      else
        var m := st.tx[k];
        var l := AnnounceServices(m.answers, ids, |ids|);
        var m := if ip then
                   m.(answers := Hosts(st, l, ids, true),
                      additional := Dealloc(Dealloc(m.additional, TYPE_A, None), TYPE_AAAA, None))
                 else m.(answers := l);
        SetPcb(st.(tx := st.tx[k := m]), link, p.(state := ANNOUNCE_1))
    else if p.state == RUNNING && st.hostname != [] then
      var m := NewPacket(st, link, true).(answers := AnnounceServices([], ids, |ids|),
                                          servers := if ip then Hosts(st, [], ids, true) else []);
      ScheduleNew(SetPcb(st, link, p.(state := ANNOUNCE_1)), m, 0)
    else st
  }

  // ---------------------------------------------------------------- the timer and the service task

  /** The due packets are flagged and posted while the queue takes them; `accepts` tells whether it does. */
  function Flag(tx: seq<Packet>, now: nat, accepts: seq<bool>): (r: (seq<Packet>, seq<Action>))
    ensures |r.0| == |tx|
  {
    if tx == [] || tx[0].sendAt >= now then (tx, [])
    else
      var taken := accepts != [] && accepts[0];
      var (rest, posted) := Flag(tx[1..], now, if accepts == [] then [] else accepts[1..]);
      ([tx[0].(queued := taken)] + rest, if taken then [Send(tx[0].id)] + posted else posted)
  }

  /** The number of packets flagged at the head of the list. */
  function Flagged(tx: seq<Packet>): (k: nat)
    ensures k <= |tx| && (k < |tx| ==> !tx[k].queued) && forall i :: 0 <= i < k ==> tx[i].queued
  {
    if tx == [] || !tx[0].queued then 0 else Flagged(tx[1..]) + 1
  }

  /** `_mdns_scheduler_run` */
  function SchedulerRun(st: State, accepts: seq<bool>): State {
    var k := Flagged(st.tx);
    var (rest, posted) := Flag(st.tx[k..], st.now, accepts);
    st.(tx := st.tx[..k] + rest, actions := st.actions + posted)
  }

  /** `_mdns_tx_handle_packet` */
  function TxHandle(st: State, m: Packet): State
    requires m.link < |st.pcbs|
  {
    var p := st.pcbs[m.link];
    if p.state == OFF then st
    else
      var st := Tell(st, Sent(m.link, st.now, m));
      if p.state == PROBE_1 || p.state == PROBE_2 then
        var m := if p.state == PROBE_1 then m.(questions := Multicast(m.questions)) else m;
        SetPcb(Schedule(st, m, 250), m.link, p.(state := p.state + 1))
      else if p.state == PROBE_3 then
        var a := NewPacket(st, m.link, true).(answers := Announced(st, m.servers, |m.servers|));
        SetPcb(ScheduleNew(st, a, 250), m.link,
               p.(state := ANNOUNCE_1, services := [], probeIp := false, running := false, failed := 0))
      else if p.state == ANNOUNCE_1 || p.state == ANNOUNCE_2 then
        SetPcb(Schedule(st, m, 1000), m.link, p.(state := p.state + 1))
      else if p.state == ANNOUNCE_3 then SetPcb(st, m.link, p.(state := RUNNING))
      else st
  }

  /** The second and third probe no longer ask for unicast replies. */
  function Multicast(qs: seq<OutQuestion>): (r: seq<OutQuestion>)
    ensures |r| == |qs| && forall i :: 0 <= i < |qs| ==> r[i] == qs[i].(unicast := false)
  {
    if qs == [] then [] else [qs[0].(unicast := false)] + Multicast(qs[1..])
  }

  /** The action for packet `id`: it is handled only if it is at the head of the list and flagged. */
  function ExecuteSend(st: State, id: nat): State
    requires st.tx != [] ==> st.tx[0].link < |st.pcbs|
  {
    var st := st.(hand := None);
    if st.tx != [] && st.tx[0].id == id && st.tx[0].queued then
      TxHandle(st.(tx := st.tx[1..]), st.tx[0].(queued := false))
    else st
  }

  // ---------------------------------------------------------------- replies and services

  /** A reply to a query; a shared one waits 25 to 100 ms, the other goes out at once. */
  function Respond(st: State, link: nat, questions: seq<OutQuestion>, answers: seq<Answer>, additional: seq<Answer>,
                  distributed: bool, shared: bool, step: nat): State
    requires link < |st.pcbs|
  {
    if st.pcbs[link].state <= PROBE_3 then st
    else
      var m := NewPacket(st, link, true).(questions := questions, answers := answers,
                                          additional := additional, distributed := distributed);
      if shared then ScheduleNew(st, m, 25 + step % 4 * 25)
      else Tell(st, Sent(link, st.now, m)).(nextId := st.nextId + 1)
  }

  /** `_mdns_remove_scheduled_answer`, for the packets of the link that belong to distributed queries. */
  function RemoveAnswer(tx: seq<Packet>, link: nat, rtype: nat, service: Option<nat>): (r: seq<Packet>)
    ensures |r| == |tx|
  {
    if tx == [] then []
    else
      var m := tx[0];
      [if m.link == link && m.distributed then m.(answers := Dealloc(m.answers, rtype, service)) else m]
        + RemoveAnswer(tx[1..], link, rtype, service)
  }

  /** `_mdns_dealloc_scheduled_service_answers` */
  function Without(l: seq<Answer>, id: nat): seq<Answer> {
    if l == [] then []
    else (if l[0].service == Some(id) then [] else [l[0]]) + Without(l[1..], id)
  }

  /** The first question of the service's type goes, whoever asked it. */
  function Unask(st: State, qs: seq<OutQuestion>, id: nat): seq<OutQuestion>
    requires id < |st.heap|
  {
    if qs == [] then []
    else if SameType(st, qs[0].subject, st.heap[id]) then qs[1..]
    else [qs[0]] + Unask(st, qs[1..], id)
  }

  predicate SameType(st: State, subject: Subject, s: Service) {
    match subject
    case OfService(j) => j < |st.heap| && st.heap[j].service == s.service && st.heap[j].proto == s.proto
    case Echoed(qtype, service, proto) => qtype == TYPE_ANY && service == Some(s.service) && proto == Some(s.proto)
    case _ => false
  }

  /** The array without the first entry for `id`. */
  function Strike(ids: seq<nat>, id: nat): seq<nat> {
    if ids == [] then [] else if ids[0] == id then ids[1..] else [ids[0]] + Strike(ids[1..], id)
  }

  /** A packet and the state of its link after a service has been taken out of them. */
  function Strip(st: State, m: Packet, p: Pcb, id: nat): (Packet, Pcb)
    requires id < |st.heap|
  {
    var answers := Without(m.answers, id);
    var n := m.(answers := answers, additional := Without(m.additional, id), servers := Without(m.servers, id));
    if !p.ready then (n, p)
    else if Probing(p) then
      if !Held(p.services, id) then (n, p)
      else
        var n := n.(questions := Unask(st, n.questions, id));
        if |p.services| > 1 then (n, p.(services := Strike(p.services, id)))
        else if p.probeIp then (n, p.(services := []))
        else (n, p.(services := [], running := false, state := RUNNING))
    else if Announcing(p) && m.answers != [] && answers == [] then (n, p.(state := RUNNING))
    else (n, p)
  }

  /** `_mdns_remove_scheduled_service_packets` */
  function RemoveService(st: State, tx: seq<Packet>, pcbs: seq<Pcb>, id: nat): (r: (seq<Packet>, seq<Pcb>))
    requires id < |st.heap| && OnLinks(tx, |pcbs|)
    ensures |r.1| == |pcbs|
  {
    if tx == [] then (tx, pcbs)
    else
      var (m, p) := Strip(st, tx[0], pcbs[tx[0].link], id);
      var (rest, after) := RemoveService(st, tx[1..], pcbs[m.link := p], id);
      (if Blank(m) then rest else [m] + rest, after)
  }

  predicate OnLinks(tx: seq<Packet>, n: nat) {
    forall i :: 0 <= i < |tx| ==> tx[i].link < n
  }

  // ---------------------------------------------------------------- delegated hosts

  /** `_hostname_is_ours` */
  predicate IsOurs(st: State, name: text) {
    (st.hostname != [] && CaseEq(name, st.hostname)) || IsHost(st.hosts, name)
  }

  predicate IsHost(hosts: seq<text>, name: text) {
    exists i :: 0 <= i < |hosts| && CaseEq(name, hosts[i])
  }

  /** `_mdns_delegate_hostname_add`: a new host comes first. */
  function AddHost(st: State, name: text): State {
    if IsOurs(st, name) then st else st.(hosts := [name] + st.hosts)
  }

  /**
   * The end of `_mdns_delegate_hostname_remove`, when the services on the host are gone: the first of
   * that name goes.
   */
  function WithoutHost(hosts: seq<text>, name: text): seq<text> {
    if hosts == [] then []
    else if CaseEq(name, hosts[0]) then hosts[1..]
    else [hosts[0]] + WithoutHost(hosts[1..], name)
  }

  // ---------------------------------------------------------------- links coming and going

  /** `_mdns_enable_pcb`; `up` tells whether the socket could be set up. */
  function Enable(st: State, link: nat, up: bool, random: nat): State
    requires link < |st.pcbs| && InHeap(st, st.listed) && AllInHeap(st)
  {
    var p := st.pcbs[link];
    if !p.ready && !up then SetPcb(st, link, p.(failed := 0))
    else InitProbe(SetPcb(st, link, p.(ready := true)), link, st.listed, true, random)
  }

  /** `_mdns_disable_pcb` */
  function Disable(st: State, link: nat): State
    requires link < |st.pcbs|
  {
    var p := st.pcbs[link];
    if p.ready then SetPcb(Drop(st, link), link, Pcb(OFF, [], false, false, 0, false))
    else SetPcb(st, link, p.(state := OFF))
  }
}
