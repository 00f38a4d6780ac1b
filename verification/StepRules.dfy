/**
 What the steps of the responder do to what they are about: names, hosts, lists of services, replies on
 their way, and the probes that follow a change.
 */
module StepRules {
  import opened Bytes
  import opened Lists
  import opened Txt
  import opened Answers
  import opened AnswerRules
  import opened TxQueue
  import opened Responder
  import opened Protocol
  import opened ProbeSafety
  import opened ServiceRemoval
  import opened ResponderRuns
  import Announcing
  import opened Wire

  // ---------------------------------------------------------------- a new name

  /** Services on the old own name move to the new one, and no others. */
  lemma {:induction false} RemapIs(heap: seq<Service>, was: text, name: text, i: nat)
    requires i < |heap|
    ensures Remap(heap, was, name)[i] ==
            heap[i].(hostname := if heap[i].hostname == Some(was) then Some(name) else heap[i].hostname)
  {
    if i > 0 { RemapIs(heap[1..], was, name, i - 1); }
  }

  lemma {:induction false} MissingNone(ids: seq<nat>)
    ensures Missing(ids, []) == ids
  {
    if ids != [] { MissingNone(ids[1..]); }
  }

  /** A link that starts from nothing probes for just these services. */
  lemma StartedAnew(p: Pcb, ids: seq<nat>, ip: bool)
    ensures var q := Started(p, ids, ip, true);
            q == Pcb(PROBE_1, ids, p.probeIp || ip, true, p.failed, p.ready)
  {
    MissingNone(ids);
    AndNothing(ids);
  }

  /**
   After the responder is renamed every ready link probes for all registered services and its addresses,
   under the new name; and the services that were on the old name are on the new one.
   */
  lemma RenameProbes(st: State, name: text, randoms: seq<nat>, k: nat, i: nat)
    requires Sane(st) && name != [] && |randoms| == |st.pcbs| && k < |st.pcbs| && i < |st.heap|
    ensures var r := Next(st, Rename(name, randoms));
            && r.hostname == name && |r.pcbs| == |st.pcbs| && |r.heap| == |st.heap|
            && r.pcbs[k] == (if st.pcbs[k].ready then Pcb(PROBE_1, st.listed, true, true, st.pcbs[k].failed, true)
                             else st.pcbs[k])
            && r.heap[i] == st.heap[i].(hostname := if st.heap[i].hostname == Some(st.hostname) then Some(name)
                                                    else st.heap[i].hostname)
  {
    RenamedSane(st, name);
    RemapIs(st.heap, st.hostname, name, i);
    StartedAnew(st.pcbs[k], st.listed, true);
    hide Started, ProbeAll, Remap, InHeap, AllInHeap, OnLinks;
    var s := Renamed(st, name).(tx := []);
    ProbeAllStarts(s, st.listed, true, true, randoms, 0, k);
    ProbeAllNames(s, st.listed, true, true, randoms, 0);
  }

  lemma {:induction false} ProbeAllNames(st: State, ids: seq<nat>, ip: bool, clear: bool, randoms: seq<nat>, i: nat)
    requires i <= |st.pcbs| == |randoms| && InHeap(st, ids) && AllInHeap(st)
    ensures var r := ProbeAll(st, ids, ip, clear, randoms, i); r.hostname == st.hostname && r.heap == st.heap
    decreases |st.pcbs| - i
  {
    if i < |st.pcbs| {
      NextKeeps(st, ids, ip, clear, randoms[i], i);
      hide InitProbe, Forget, InHeap, AllInHeap;
      var s := if clear then Forget(st, i) else st;
      var next := if st.pcbs[i].ready then InitProbe(s, i, ids, ip, randoms[i]) else st;
      ProbeAllNames(next, ids, ip, clear, randoms, i + 1);
    }
  }

  lemma NextKeeps(st: State, ids: seq<nat>, ip: bool, clear: bool, random: nat, i: nat)
    requires i < |st.pcbs| && InHeap(st, ids) && AllInHeap(st)
    ensures var s := if clear then Forget(st, i) else st;
            && InHeap(s, ids) && i < |s.pcbs| && InHeap(s, s.pcbs[i].services)
            && var r := InitProbe(s, i, ids, ip, random);
               r.hostname == st.hostname && r.heap == st.heap && |r.pcbs| == |st.pcbs| && AllInHeap(r) && InHeap(r, ids)
  {
    hide InitProbe;
  }

  /** The services without instance name are those, in their order. */
  lemma {:induction false} NamelessIs(st: State, ids: seq<nat>, id: nat)
    requires InHeap(st, ids)
    ensures Held(Nameless(st, ids), id) <==> Held(ids, id) && id < |st.heap| && st.heap[id].instance.None?
  {
    if ids != [] {
      NamelessIs(st, ids[1..], id);
      assert ids == [ids[0]] + ids[1..];
      HeldCons(ids[0], ids[1..], id);
      HeldCons(ids[0], Nameless(st, ids[1..]), id);
      AndNothing(Nameless(st, ids[1..]));
    }
  }

  /** A new service is probed for on every ready link, besides what the link is probing for. */
  lemma RegisterProbes(st: State, service: Service, randoms: seq<nat>, k: nat, id: nat)
    requires Inv(st) && Sane(st) && |randoms| == |st.pcbs| && k < |st.pcbs| && st.hostname != []
    ensures var r := Next(st, Register(service, randoms));
            && |r.pcbs| == |st.pcbs|
            && (!st.pcbs[k].ready ==> r.pcbs[k] == st.pcbs[k])
            && (st.pcbs[k].ready ==>
                  && r.pcbs[k].state == PROBE_1
                  && (Held(r.pcbs[k].services, id) <==> id == |st.heap| || Held(st.pcbs[k].services, id)))
  {
    var p, ids := st.pcbs[k], [|st.heap|];
    assert Link(st, k);
    OneHeld(|st.heap|, id);
    assert NoDup(ids);
    MergeIsUnion(p, ids, id);
    hide Inv, ProbeAll, Missing, Held, NoDup, Link;
    ProbeAllStarts(Registered(st, service), ids, false, false, randoms, 0, k);
  }

  lemma OneHeld(a: nat, id: nat)
    ensures Held([a], id) <==> id == a
  {
    assert [a][0] == a;
  }

  // ---------------------------------------------------------------- delegated hosts

  /** A delegated host is known afterwards, up to case; the own name is never added. */
  lemma AddHostIs(st: State, name: text, x: text)
    ensures var r := AddHost(st, name);
            && IsOurs(r, name) && (IsOurs(r, x) <==> IsOurs(st, x) || (CaseEq(x, name) && !IsOurs(st, name)))
            && r == st.(hosts := r.hosts)
  {
    CaseEqSelf(name);
    var r := AddHost(st, name);
    hide CaseEq;
    if r.hosts != st.hosts {
      assert r.hosts == [name] + st.hosts && CaseEq(name, r.hosts[0]);
      AddedHost(st.hosts, name, x);
      AddedHost(st.hosts, name, name);
    }
  }

  lemma AddedHost(hosts: seq<text>, name: text, x: text)
    ensures IsHost([name] + hosts, x) <==> CaseEq(x, name) || IsHost(hosts, x)
  {
    hide CaseEq;
    var r := [name] + hosts;
    if CaseEq(x, name) { assert CaseEq(x, r[0]); }
    if i :| 0 <= i < |hosts| && CaseEq(x, hosts[i]) { assert CaseEq(x, r[i + 1]); }
  }

  /** Removing a host takes the first of that name out of the list, if there is one. */
  lemma {:induction false} WithoutHostIs(hosts: seq<text>, name: text)
    ensures var r := WithoutHost(hosts, name);
            || (r == hosts && !IsHost(hosts, name))
            || exists k :: 0 <= k < |hosts| && FirstHost(hosts, name, k) && r == hosts[..k] + hosts[k + 1..]
  {
    hide CaseEq;
    if hosts != [] {
      if CaseEq(name, hosts[0]) { assert FirstHost(hosts, name, 0) && hosts[..0] + hosts[0 + 1..] == hosts[1..]; }
      else {
        WithoutHostIs(hosts[1..], name);
        RestOfHosts(hosts, WithoutHost(hosts[1..], name), name);
      }
    }
  }

  predicate FirstHost(hosts: seq<text>, name: text, k: nat)
    requires k < |hosts|
  {
    CaseEq(name, hosts[k]) && forall j :: 0 <= j < k ==> !CaseEq(name, hosts[j])
  }

  lemma RestOfHosts(hosts: seq<text>, r: seq<text>, name: text)
    requires hosts != [] && !CaseEq(name, hosts[0])
    requires || (r == hosts[1..] && !IsHost(hosts[1..], name))
             || exists k :: 0 <= k < |hosts[1..]| && FirstHost(hosts[1..], name, k)
                            && r == hosts[1..][..k] + hosts[1..][k + 1..]
    ensures || ([hosts[0]] + r == hosts && !IsHost(hosts, name))
            || exists k :: 0 <= k < |hosts| && FirstHost(hosts, name, k)
                           && [hosts[0]] + r == hosts[..k] + hosts[k + 1..]
  {
    hide CaseEq;
    var t := hosts[1..];
    if k :| 0 <= k < |t| && FirstHost(t, name, k) && r == t[..k] + t[k + 1..] {
      forall j | 0 <= j < k + 1 ensures !CaseEq(name, hosts[j]) { if j > 0 { assert t[j - 1] == hosts[j]; } }
      assert FirstHost(hosts, name, k + 1);
      TakenOut(hosts, k + 1);
    } else {
      assert [hosts[0]] + t == hosts;
      assert forall i :: 0 < i < |hosts| ==> hosts[i] == t[i - 1];
    }
  }

  // ---------------------------------------------------------------- replies

  /** The reply as a packet. */
  function ReplyPacket(st: State, link: nat, questions: seq<OutQuestion>, answers: seq<Answer>,
                       additional: seq<Answer>, distributed: bool, sendAt: nat): Packet
  {
    Packet(st.nextId, link, sendAt, false, true, distributed, questions, answers, additional, [])
  }

  /**
   A reply on a link that does not probe: a shared one is scheduled behind what is due no later, 25, 50, 75
   or 100 ms from now; any other is sent at once. A link that is off or probes does not reply.
   */
  lemma RespondIs(st: State, link: nat, questions: seq<OutQuestion>, answers: seq<Answer>, additional: seq<Answer>,
                  distributed: bool, shared: bool, step: nat)
    requires link < |st.pcbs| && (st.pcbs[link].state == OFF || PROBE_1 <= st.pcbs[link].state <= RUNNING)
    ensures var r := Respond(st, link, questions, answers, additional, distributed, shared, step);
            var p := st.pcbs[link];
            && r.pcbs == st.pcbs
            && (p.state == OFF || Probing(p) ==> r == st)
            && (p.state != OFF && !Probing(p) && !shared ==>
                  r.tx == st.tx && r.trace == st.trace + [Sent(link, st.now,
                    ReplyPacket(st, link, questions, answers, additional, distributed, 0))])
            && (p.state != OFF && !Probing(p) && shared ==>
                  && r.trace == st.trace
                  && var at := st.now + 25 + 25 * (step % 4); var k := Position(st.tx, at);
                     r.tx == st.tx[..k] + [ReplyPacket(st, link, questions, answers, additional, distributed, at)]
                             + st.tx[k..])
  {
    hide Position;
  }

  /** A known answer takes one record out of the packets of distributed queries on its link, and out of no other. */
  lemma {:induction false} RemoveAnswerIs(tx: seq<Packet>, link: nat, rtype: nat, service: Option<nat>, i: nat)
    requires i < |tx|
    ensures var m, n := tx[i], RemoveAnswer(tx, link, rtype, service)[i];
            && n == m.(answers := n.answers)
            && (if m.link == link && m.distributed then Announcing.LessOne(m.answers, n.answers, rtype, service)
                else n == m)
  {
    if i > 0 { RemoveAnswerIs(tx[1..], link, rtype, service, i - 1); }
    else {
      hide Dealloc;
      Announcing.DeallocIs(tx[0].answers, rtype, service);
      hide Announcing.LessOne;
    }
  }

  // ---------------------------------------------------------------- the timer

  lemma {:induction false} DueIs(tx: seq<Packet>, now: nat)
    ensures var d := Due(tx, now);
            (forall i :: 0 <= i < d ==> tx[i].sendAt < now) && (d < |tx| ==> tx[d].sendAt >= now)
  {
    if tx != [] && tx[0].sendAt < now {
      DueIs(tx[1..], now);
      forall i | 0 <= i < Due(tx, now) ensures tx[i].sendAt < now { if i > 0 { assert tx[1..][i - 1] == tx[i]; } }
    }
  }

  /**
   A run of the timer flags every packet that is due and not flagged yet, as far as its post is taken, and
   changes nothing else; the posts taken are those of the packets newly flagged, in order.
   */
  lemma TimerFlags(st: State, accepts: seq<bool>, i: nat)
    requires Base(st) && i < |st.tx|
    ensures var r, k := SchedulerRun(st, accepts), Flagged(st.tx);
            && |r.tx| == |st.tx|
            && r.tx[i] == st.tx[i].(queued := i < k || (st.tx[i].sendAt < st.now && Taken(accepts, i - k)))
            && var posts := Posts(st.tx, st.now, accepts);
               r.actions == st.actions + posts && QueuedIds(r.tx) == QueuedIds(st.tx) + SendIds(posts)
  {
    TimerIs(st, accepts);
    assert Pairs(st.tx) && Sorted(st.tx);
    hide Base;
    RunAt(st.tx, st.now, accepts, i);
    RunPosts(st.tx, st.now, accepts);
    if i >= Flagged(st.tx) { DueAt(st.tx, Flagged(st.tx), st.now, i); }
    hide SchedulerRun, Run, Posts, QueuedIds, SendIds, Due, Taken;
  }

  /** In a sorted list the packets counted as due are all that are. */
  lemma DueAt(tx: seq<Packet>, k: nat, now: nat, i: nat)
    requires Sorted(tx) && k <= i < |tx|
    ensures i - k < Due(tx[k..], now) <==> tx[i].sendAt < now
  {
    var rest := tx[k..];
    DueIs(rest, now);
    hide Due;
    assert rest[i - k] == tx[i];
    var d := Due(rest, now);
    if k + d <= i { assert rest[d] == tx[k + d]; }
  }

  // ---------------------------------------------------------------- links coming and going

  /** A link that comes up probes for all registered services and its addresses, besides what it was probing for. */
  lemma EnableProbes(st: State, l: nat, up: bool, random: nat)
    requires l < |st.pcbs| && InHeap(st, st.listed) && AllInHeap(st)
    ensures var p, r := st.pcbs[l], Enable(st, l, up, random);
            && r.pcbs == st.pcbs[l := r.pcbs[l]]
            && r.pcbs[l] == (if !p.ready && !up then p.(failed := 0)
                             else if st.hostname == [] then p.(ready := true, state := RUNNING)
                             else Started(p.(ready := true), st.listed, true, false))
  {
    var p := st.pcbs[l];
    if p.ready || up {
      var s := SetPcb(st, l, p.(ready := true));
      if st.hostname != [] { InitProbeStarts(s, l, st.listed, true, false, random); }
      hide Started, StartProbe;
    }
  }

  /** A ready link that is taken down is reset, its packets are gone, and the others stay. */
  lemma DisableClears(st: State, l: nat, k: nat)
    requires l < |st.pcbs| && k < |st.pcbs|
    ensures var p, r := st.pcbs[l], Disable(st, l);
            && r.pcbs == st.pcbs[l := if p.ready then Pcb(OFF, [], false, false, 0, false) else p.(state := OFF)]
            && Mine(r.tx, k) == (if k == l && p.ready then [] else Mine(st.tx, k)) && r.trace == st.trace
  {
    DropOthers(st.tx, l, k);
    hide Keep;
  }

  /** A start puts one packet on its link in place of all that were there, and none on any other. */
  lemma InitProbeMine(st: State, l: nat, ids: seq<nat>, ip: bool, random: nat, k: nat)
    requires l < |st.pcbs| && InHeap(st, ids) && InHeap(st, st.pcbs[l].services)
    ensures var r := InitProbe(st, l, ids, ip, random);
            && (k != l ==> Mine(r.tx, k) == Mine(st.tx, k))
            && |Mine(r.tx, l)| == (if st.hostname == [] then 0 else 1)
            && (st.hostname == [] ==> r == Drop(st, l).(pcbs := st.pcbs[l := st.pcbs[l].(state := RUNNING)]))
  {
    MissingInHeap(st, ids, st.pcbs[l].services);
    DropOthers(st.tx, l, k);
    DropOthers(st.tx, l, l);
    hide Keep, ProbeSections, Insert, Missing, Merged;
    if st.hostname != [] {
      var some := if Probing(st.pcbs[l]) then Missing(ids, st.pcbs[l].services) else ids;
      StartMine(Drop(st, l), l, some, ip, random, k);
    }
  }

  lemma StartMine(st: State, l: nat, ids: seq<nat>, ip: bool, random: nat, k: nat)
    requires l < |st.pcbs| && InHeap(st, ids) && InHeap(st, st.pcbs[l].services) && Mine(st.tx, l) == []
    ensures var r := StartProbe(st, l, ids, ip, random);
            (k != l ==> Mine(r.tx, k) == Mine(st.tx, k)) && |Mine(r.tx, l)| == 1
  {
    var n := StartTx(st, l, ids, ip, random);
    hide StartProbe, Keep, Insert;
    InsertMine(st.tx, n, k);
    InsertMine(st.tx, n, l);
  }

  lemma StartTx(st: State, l: nat, ids: seq<nat>, ip: bool, random: nat) returns (m: Packet)
    requires l < |st.pcbs| && InHeap(st, ids) && InHeap(st, st.pcbs[l].services)
    ensures m.link == l && StartProbe(st, l, ids, ip, random).tx == Insert(st.tx, m)
  {
    hide ProbeSections, Insert;
    var p := st.pcbs[l];
    var s := ProbeSections(st, Merged(p, ids), true, p.probeIp || ip);
    m := NewPacket(st, l, false).(questions := s.questions, servers := s.servers,
                                  sendAt := st.now + FirstDelay(p, random));
  }

  /** One turn of the loop over the links. */
  lemma OneRestart(st: State, ids: seq<nat>, ip: bool, clear: bool, random: nat, i: nat, k: nat)
    requires i < |st.pcbs| && k < |st.pcbs| && InHeap(st, ids) && AllInHeap(st) && st.hostname != []
    ensures var s := if clear then Forget(st, i) else st;
            && InHeap(s, ids) && i < |s.pcbs| && InHeap(s, s.pcbs[i].services)
            && var r := if st.pcbs[i].ready then InitProbe(s, i, ids, ip, random) else st;
               && r.hostname == st.hostname && |r.pcbs| == |st.pcbs| && AllInHeap(r) && InHeap(r, ids)
               && r.pcbs[k].ready == st.pcbs[k].ready
               && (if k == i && st.pcbs[k].ready then |Mine(r.tx, k)| == 1 else Mine(r.tx, k) == Mine(st.tx, k))
  {
    NextKeeps(st, ids, ip, clear, random, i);
    var s := if clear then Forget(st, i) else st;
    InitProbeMine(s, i, ids, ip, random, k);
    InitProbeStarts(st, i, ids, ip, clear, random);
    hide InitProbe, InHeap, AllInHeap, Keep;
  }

  /** After a restart of everything only ready links have packets, one each. */
  lemma {:induction false} RestartMine(st: State, ids: seq<nat>, ip: bool, clear: bool, randoms: seq<nat>, i: nat,
                                       k: nat)
    requires i <= |st.pcbs| == |randoms| && k < |st.pcbs| && InHeap(st, ids) && AllInHeap(st) && st.hostname != []
    ensures var r := ProbeAll(st, ids, ip, clear, randoms, i);
            if i <= k && st.pcbs[k].ready then |Mine(r.tx, k)| == 1 else Mine(r.tx, k) == Mine(st.tx, k)
    decreases |st.pcbs| - i
  {
    hide InitProbe, Forget, InHeap, AllInHeap, Mine;
    if i < |st.pcbs| {
      OneRestart(st, ids, ip, clear, randoms[i], i, k);
      var s := if clear then Forget(st, i) else st;
      var next := if st.pcbs[i].ready then InitProbe(s, i, ids, ip, randoms[i]) else st;
      RestartMine(next, ids, ip, clear, randoms, i + 1, k);
    }
  }

  // ---------------------------------------------------------------- a service removed from announcements

  /** The packet has answers, and all of them are of the service. */
  predicate OnlyOf(m: Packet, id: nat) {
    m.answers != [] && forall k :: 0 <= k < |m.answers| ==> m.answers[k].service == Some(id)
  }

  lemma {:induction false} WithoutAll(l: seq<Answer>, id: nat)
    ensures Without(l, id) == [] <==> forall k :: 0 <= k < |l| ==> l[k].service == Some(id)
  {
    if l != [] {
      WithoutAll(l[1..], id);
      assert forall k :: 0 < k < |l| ==> l[k] == l[1..][k - 1];
      if Without(l, id) == [] {
        assert l[0].service == Some(id);
        forall k | 0 <= k < |l| ensures l[k].service == Some(id) {}
      } else if l[0].service == Some(id) {
        assert exists k :: 0 <= k < |l[1..]| && l[1..][k].service != Some(id);
        var k :| 0 <= k < |l[1..]| && l[1..][k].service != Some(id);
        assert l[k + 1].service != Some(id);
      }
    }
  }

  /** An announcing ready link runs afterwards if and only if one of its packets announced nothing else. */
  lemma {:induction false} AnnouncingStrip(st: State, mine: seq<Packet>, p: Pcb, id: nat)
    requires id < |st.heap| && p.ready && Responder.Announcing(p)
    ensures StripOn(st, mine, p, id).1 ==
            if exists i :: 0 <= i < |mine| && OnlyOf(mine[i], id) then p.(state := RUNNING) else p
  {
    if mine != [] {
      WithoutAll(mine[0].answers, id);
      hide Without, Unask, Strike, OnlyOf;
      var (m, q) := Strip(st, mine[0], p, id);
      assert q == if OnlyOf(mine[0], id) then p.(state := RUNNING) else p by { OneStrip(st, mine[0], p, id); }
      hide Strip;
      if OnlyOf(mine[0], id) { RunningStrip(st, mine[1..], q, id); }
      else {
        AnnouncingStrip(st, mine[1..], q, id);
        if i :| 0 <= i < |mine| && OnlyOf(mine[i], id) { assert OnlyOf(mine[1..][i - 1], id); }
        if i :| 0 <= i < |mine[1..]| && OnlyOf(mine[1..][i], id) { assert OnlyOf(mine[i + 1], id); }
      }
    }
  }

  lemma OneStrip(st: State, m: Packet, p: Pcb, id: nat)
    requires id < |st.heap| && p.ready && Responder.Announcing(p)
    ensures Strip(st, m, p, id).1 == if OnlyOf(m, id) then p.(state := RUNNING) else p
  {
    WithoutAll(m.answers, id);
    hide Without, Unask, Strike;
  }

  lemma {:induction false} RunningStrip(st: State, mine: seq<Packet>, p: Pcb, id: nat)
    requires id < |st.heap| && p.state == RUNNING
    ensures StripOn(st, mine, p, id).1 == p
  {
    hide Without, Unask, Strike;
    if mine != [] { RunningStrip(st, mine[1..], p, id); }
  }
}
