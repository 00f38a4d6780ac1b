/**
 Whole runs of the responder: every step keeps the invariant, save one that is found out exactly, and
 what the invariant means for the packets that leave.
 */
module ResponderRuns {
  import opened Bytes
  import opened Txt
  import opened Answers
  import opened TxQueue
  import opened Responder
  import opened Protocol
  import opened ProbeSafety
  import opened ServiceRemoval
  import opened Wire

  // ---------------------------------------------------------------- packets that differ in nothing a probe needs

  predicate AlikePacket(a: Packet, b: Packet) {
    b == a.(queued := b.queued, answers := b.answers, additional := b.additional)
  }

  predicate Alike(tx: seq<Packet>, r: seq<Packet>) {
    |r| == |tx| && forall i :: 0 <= i < |tx| ==> AlikePacket(tx[i], r[i])
  }

  lemma {:induction false} AlikeMine(tx: seq<Packet>, r: seq<Packet>, l: nat)
    requires Alike(tx, r)
    ensures Alike(Mine(tx, l), Mine(r, l))
  {
    if tx != [] {
      assert AlikePacket(tx[0], r[0]);
      assert Alike(tx[1..], r[1..]) by {
        forall i | 0 <= i < |tx[1..]| ensures AlikePacket(tx[1..][i], r[1..][i]) {
          assert AlikePacket(tx[i + 1], r[i + 1]);
        }
      }
      AlikeMine(tx[1..], r[1..], l);
      var a, b := Mine(tx[1..], l), Mine(r[1..], l);
      assert Alike([tx[0]] + a, [r[0]] + b);
    }
  }

  lemma AlikeLink(p: Pcb, mine: seq<Packet>, other: seq<Packet>, hist: seq<Event>, start: Option<Event>, named: bool)
    requires LinkOk(p, mine, hist, start, named) && Alike(mine, other)
    ensures LinkOk(p, other, hist, start, named)
  {
    hide Spaced, Backed, AllUnicast, NoDup;
    if mine != [] { assert AlikePacket(mine[0], other[0]); }
  }

  /** Packets change only in what no probe is about. */
  lemma AlikeInv(st: State, r: State)
    requires Inv(st) && Base(r) && Alike(st.tx, r.tx)
    requires r.pcbs == st.pcbs && r.hostname == st.hostname && r.trace == st.trace
    ensures Inv(r)
  {
    hide Base, LinkOk, Since, Start, Alike, Mine;
    forall l | 0 <= l < |r.pcbs| ensures Link(r, l) {
      assert Link(st, l);
      AlikeMine(st.tx, r.tx, l);
      AlikeLink(r.pcbs[l], Mine(st.tx, l), Mine(r.tx, l), Since(st.trace, l), Start(st.trace, l), st.hostname != []);
    }
  }

  // ---------------------------------------------------------------- the timer and the queue

  lemma TickOk(st: State, later: nat)
    requires Inv(st) && st.now <= later
    ensures Inv(st.(now := later))
  {
    hide Link, NoDup, Pairs, Listed;
    LaterTxOk(st.tx, Pending(st.hand, st.actions), st.now, st.nextId, |st.pcbs|, later, st.nextId);
    var r := st.(now := later);
    forall l | 0 <= l < |r.pcbs| ensures Link(r, l) { SameLink(st, r, l); }
  }

  lemma SameLink(st: State, r: State, l: nat)
    requires l < |st.pcbs| && Link(st, l)
    requires r.pcbs == st.pcbs && r.hostname == st.hostname && r.trace == st.trace && r.tx == st.tx
    ensures Link(r, l)
  {
  }

  lemma PostOk(st: State)
    requires Inv(st)
    ensures Inv(st.(actions := st.actions + [Other]))
  {
    PendingMore(st.hand, st.actions, [Other]);
    assert SendIds([Other]) == [];
    assert Pending(st.hand, st.actions) + [] == Pending(st.hand, st.actions);
    SameLinks(st, st.(actions := st.actions + [Other]));
  }

  lemma ReceiveOk(st: State)
    requires Inv(st) && st.hand == None && st.actions != []
    ensures Inv(st.(hand := Some(st.actions[0]), actions := st.actions[1..]))
  {
    var r := st.(hand := Some(st.actions[0]), actions := st.actions[1..]);
    assert [st.actions[0]] + st.actions[1..] == st.actions;
    assert [] + st.actions == st.actions;
    assert Pending(r.hand, r.actions) == Pending(st.hand, st.actions);
    SameLinks(st, r);
  }

  lemma DoneOk(st: State)
    requires Inv(st) && st.hand == Some(Other)
    ensures Inv(st.(hand := None))
  {
    PendingHand(Other, st.actions);
    assert [] + Pending(None, st.actions) == Pending(None, st.actions);
    SameLinks(st, st.(hand := None));
  }

  /** A post is refused and a later one of the same run of the timer is taken. */
  predicate Bypasses(st: State, accepts: seq<bool>) {
    !RefusesToTheEnd(accepts, Due(st.tx[Flagged(st.tx)..], st.now))
  }

  lemma TimerIs(st: State, accepts: seq<bool>)
    ensures var r := SchedulerRun(st, accepts);
            r == st.(tx := Run(st.tx, st.now, accepts), actions := st.actions + Posts(st.tx, st.now, accepts))
  {
  }

  /** The timer keeps the invariant exactly when no post overtakes a refused one. */
  lemma TimerExact(st: State, accepts: seq<bool>)
    requires Inv(st)
    ensures Inv(SchedulerRun(st, accepts)) <==> !Bypasses(st, accepts)
  {
    hide Link, NoDup, RefusesToTheEnd, Due;
    var r := SchedulerRun(st, accepts);
    TimerIs(st, accepts);
    var posts := Posts(st.tx, st.now, accepts);
    PendingMore(st.hand, st.actions, posts);
    RunTxOk(st.tx, Pending(st.hand, st.actions), st.now, st.nextId, |st.pcbs|, accepts);
    if !Bypasses(st, accepts) {
      RunAlike(st.tx, st.now, accepts);
      hide TxOk, Run, Posts, Alike;
      AlikeInv(st, r);
    }
  }

  lemma RunAlike(tx: seq<Packet>, now: nat, accepts: seq<bool>)
    requires Pairs(tx)
    ensures Alike(tx, Run(tx, now, accepts))
  {
    forall i | 0 <= i < |tx| ensures AlikePacket(tx[i], Run(tx, now, accepts)[i]) { RunAt(tx, now, accepts, i); }
  }

  // ---------------------------------------------------------------- probes on all links

  /** Links from `i` on that are ready need only be fit for a start. */
  predicate Half(st: State, i: nat) {
    Base(st) && forall k :: 0 <= k < |st.pcbs| ==>
      Link(st, k) || (i <= k && st.pcbs[k].ready && Weak(st.pcbs[k], st.hostname != []))
  }

  lemma HalfNext(st: State, r: State, i: nat)
    requires Half(st, i) && i < |st.pcbs| && Elsewhere(st, r, i) && Base(r) && Link(r, i)
    ensures Half(r, i + 1)
  {
    hide Base, LinkOk, Weak, Since, Start, Mine;
    forall k | 0 <= k < |r.pcbs|
      ensures Link(r, k) || (i + 1 <= k && r.pcbs[k].ready && Weak(r.pcbs[k], r.hostname != []))
    {
      if k != i { assert Link(st, k) || (i <= k && st.pcbs[k].ready && Weak(st.pcbs[k], st.hostname != [])); }
    }
  }

  lemma ForgetOk(st: State, l: nat)
    requires Base(st) && l < |st.pcbs| && Weak(st.pcbs[l], st.hostname != [])
    ensures var r := Forget(st, l); Base(r) && Weak(r.pcbs[l], st.hostname != []) && Elsewhere(st, r, l)
  {
  }

  lemma ProbeOne(st: State, ids: seq<nat>, ip: bool, clear: bool, random: nat, i: nat)
    requires Half(st, i) && i < |st.pcbs| && InHeap(st, ids) && NoDup(ids) && (ids != [] || ip)
    ensures var s := if clear then Forget(st, i) else st;
            var r := if st.pcbs[i].ready then InitProbe(s, i, ids, ip, random) else st;
            Half(r, i + 1) && r.heap == st.heap && |r.pcbs| == |st.pcbs|
  {
    hide Base, Since, Start, Mine, InitProbe, NoDup, ProbeLink;
    if st.pcbs[i].ready {
      assert Weak(st.pcbs[i], st.hostname != []) by { assert Link(st, i) || Weak(st.pcbs[i], st.hostname != []); }
      var s := if clear then Forget(st, i) else st;
      BaseInHeap(st);
      ForgetOk(st, i);
      BaseInHeap(s);
      InitProbeOk(s, i, ids, ip, random);
      hide Weak, LinkOk, Forget;
      var r := InitProbe(s, i, ids, ip, random);
      if clear { ElsewhereTwice(st, s, r, i); }
      HalfNext(st, r, i);
    } else {
      assert Link(st, i);
      HalfSkip(st, i);
    }
  }

  lemma BaseInHeap(st: State)
    requires Base(st)
    ensures AllInHeap(st)
  {
  }

  lemma HalfSkip(st: State, i: nat)
    requires Half(st, i) && i < |st.pcbs| && Link(st, i)
    ensures Half(st, i + 1)
  {
    hide Base, LinkOk, Weak, Since, Start, Mine;
  }

  lemma {:induction false} ProbeAllOk(st: State, ids: seq<nat>, ip: bool, clear: bool, randoms: seq<nat>, i: nat)
    requires i <= |st.pcbs| == |randoms| && Half(st, i) && InHeap(st, ids) && AllInHeap(st) && NoDup(ids) &&
             (ids != [] || ip)
    ensures Inv(ProbeAll(st, ids, ip, clear, randoms, i))
    decreases |st.pcbs| - i
  {
    hide Inv, Half, InitProbe, NoDup;
    if i == |st.pcbs| { HalfDone(st); }
    else {
      ProbeOne(st, ids, ip, clear, randoms[i], i);
      var s := if clear then Forget(st, i) else st;
      var next := if st.pcbs[i].ready then InitProbe(s, i, ids, ip, randoms[i]) else st;
      HalfInHeap(next, i + 1);
      SameHeap(st, next, ids);
      ProbeAllOk(next, ids, ip, clear, randoms, i + 1);
    }
  }

  lemma HalfDone(st: State)
    requires Half(st, |st.pcbs|)
    ensures Inv(st)
  {
    hide Base, Link;
  }

  lemma HalfInHeap(st: State, i: nat)
    requires Half(st, i)
    ensures AllInHeap(st)
  {
    hide Link;
    BaseInHeap(st);
  }

  lemma SameHeap(st: State, r: State, ids: seq<nat>)
    requires InHeap(st, ids) && r.heap == st.heap
    ensures InHeap(r, ids)
  {
  }

  lemma InvHalf(st: State)
    requires Inv(st)
    ensures Half(st, 0)
  {
    hide Base, Link, Weak;
  }

  lemma RestartAllOk(st: State, randoms: seq<nat>)
    requires Base(st) && |st.pcbs| == |randoms|
    requires forall l :: 0 <= l < |st.pcbs| ==> Link(st, l)
    ensures InHeap(st, st.listed) && AllInHeap(st) && Inv(RestartAll(st, randoms))
  {
    ClearedOk(st);
    var s := st.(tx := []);
    BaseInHeap(st);
    BaseInHeap(s);
    hide Half, Inv, Link, TxOk, ProbeAll;
    ProbeAllOk(s, st.listed, true, true, randoms, 0);
  }

  /** Without packets the links that are ready have to be probed anew, the others are fine. */
  lemma ClearedOk(st: State)
    requires Base(st) && forall l :: 0 <= l < |st.pcbs| ==> Link(st, l)
    ensures Half(st.(tx := []), 0)
  {
    var s := st.(tx := []);
    ListedNone(Pending(st.hand, st.actions), []);
    assert Base(s) by { hide Link, NoDup, AllInHeap, InHeap; }
    hide Base, Spaced, NoDup, Since, Start;
    forall k | 0 <= k < |s.pcbs| ensures Link(s, k) || (s.pcbs[k].ready && Weak(s.pcbs[k], s.hostname != [])) {
      assert Link(st, k);
    }
  }

  lemma {:induction false} NamelessOk(st: State, ids: seq<nat>)
    requires InHeap(st, ids) && NoDup(ids)
    ensures NoDup(Nameless(st, ids)) && forall i :: 0 <= i < |Nameless(st, ids)| ==> Held(ids, Nameless(st, ids)[i])
  {
    if ids != [] {
      NamelessOk(st, ids[1..]);
      var t, r := Nameless(st, ids[1..]), Nameless(st, ids);
      var d := |r| - |t|;
      forall i | 0 <= i < |t| ensures t[i] != ids[0] && Held(ids, t[i]) {
        var j :| 0 <= j < |ids[1..]| && ids[1..][j] == t[i];
        assert ids[j + 1] == t[i];
      }
      forall i | 0 <= i < |r| ensures Held(ids, r[i]) {
        if i >= d { assert r[i] == t[i - d]; } else { assert r[i] == ids[0]; }
      }
    }
  }

  lemma RestartNamelessOk(st: State, randoms: seq<nat>)
    requires Inv(st) && |st.pcbs| == |randoms|
    ensures Inv(RestartNameless(st, randoms))
  {
    InvHalf(st);
    NamelessOk(st, st.listed);
    hide Link, NoDup, TxOk;
    var ids := Nameless(st, st.listed);
    if ids != [] { ProbeAllOk(st, ids, false, true, randoms, 0); }
  }

  // ---------------------------------------------------------------- announcements, replies, links

  lemma SetPcbElsewhere(st: State, l: nat, p: Pcb)
    requires l < |st.pcbs|
    ensures Elsewhere(st, SetPcb(st, l, p), l)
  {
  }

  lemma BaseSetPcb(st: State, l: nat, p: Pcb)
    requires Base(st) && l < |st.pcbs| && InHeap(st, p.services)
    ensures Base(SetPcb(st, l, p))
  {
    hide TxOk, NoDup;
  }

  /** A link that does not probe changes its state to another such one. */
  lemma SettledPcb(st: State, l: nat, p: Pcb)
    requires Inv(st) && l < |st.pcbs| && !Probing(p) && Weak(p, st.hostname != [])
    ensures Inv(SetPcb(st, l, p))
  {
    hide TxOk, Mine, Since, Start, Weak, ProbeLink;
    assert p.services == [] by { WeakEmpty(p, st.hostname != []); }
    BaseSetPcb(st, l, p);
    SetPcbElsewhere(st, l, p);
    InvFrom(st, SetPcb(st, l, p), l);
  }

  lemma WeakEmpty(p: Pcb, named: bool)
    requires Weak(p, named) && !Probing(p)
    ensures p.services == []
  {
  }

  /** A packet made for a link that does not probe. */
  lemma NewPacketOk(st: State, m: Packet, after: nat)
    requires Inv(st) && m.link < |st.pcbs| && !m.queued && m.id == st.nextId && !Probing(st.pcbs[m.link])
    ensures Inv(ScheduleNew(st, m, after))
  {
    hide TxOk, Mine, Since, Start, Weak, ProbeLink;
    ScheduleNewOk(st, m, after);
    assert Link(st, m.link);
    InvFrom(st, ScheduleNew(st, m, after), m.link);
  }

  lemma ReplaceOk(st: State, k: nat, m: Packet)
    requires Inv(st) && k < |st.tx| && AlikePacket(st.tx[k], m) && m.queued == st.tx[k].queued
    ensures Inv(st.(tx := st.tx[k := m]))
  {
    var r := st.(tx := st.tx[k := m]);
    hide Link, Pairs, Listed, QueuedIds, NoDup;
    SameShapeTxOk(st.tx, r.tx, Pending(st.hand, st.actions), st.now, st.nextId, |st.pcbs|);
    AlikeInv(st, r);
  }

  lemma AnnounceOk(st: State, l: nat, ids: seq<nat>, ip: bool, random: nat)
    requires Inv(st) && l < |st.pcbs| && InHeap(st, ids) && NoDup(ids) && (ids != [] || ip)
    ensures AllInHeap(st) && Inv(Announce(st, l, ids, ip, random))
  {
    BaseInHeap(st);
    var p := st.pcbs[l];
    assert Link(st, l);
    if p.ready && Probing(p) { ProbeOk(st, l, ids, ip, random); }
    else if p.ready && Announcing(p) { ReannounceOk(st, l, ids, ip, random); }
    else if p.ready && p.state == RUNNING && st.hostname != [] {
      hide Inv, LinkOk, Since, Start, Mine, AnnounceServices, Hosts, NoDup, InHeap, ProbeLink;
      SettledPcb(st, l, p.(state := ANNOUNCE_1));
      var m := NewPacket(st, l, true).(answers := AnnounceServices([], ids, |ids|),
                                       servers := if ip then Hosts(st, [], ids, true) else []);
      NewPacketOk(SetPcb(st, l, p.(state := ANNOUNCE_1)), m, 0);
    }
  }

  lemma ReannounceOk(st: State, l: nat, ids: seq<nat>, ip: bool, random: nat)
    requires Inv(st) && l < |st.pcbs| && InHeap(st, ids) && AllInHeap(st)
    requires st.pcbs[l].ready && Announcing(st.pcbs[l])
    ensures Inv(Announce(st, l, ids, ip, random))
  {
    assert Link(st, l);
    var k, p := FirstOf(st.tx, l), st.pcbs[l];
    if k < |st.tx| {
      hide Base, LinkOk, ProbeLink, Since, Start, Mine, AnnounceServices, Hosts, Dealloc;
      var r := Announce(st, l, ids, ip, random);
      var t := st.(tx := r.tx);
      ReplaceOk(st, k, r.tx[k]);
      assert r.tx == st.tx[k := r.tx[k]];
      SettledPcb(t, l, p.(state := ANNOUNCE_1));
    }
  }

  /** A probe on one link, whatever it was doing. */
  lemma ProbeOk(st: State, l: nat, ids: seq<nat>, ip: bool, random: nat)
    requires Inv(st) && l < |st.pcbs| && InHeap(st, ids) && AllInHeap(st) && NoDup(ids) && (ids != [] || ip)
    ensures Inv(InitProbe(st, l, ids, ip, random))
  {
    assert Link(st, l);
    InitProbeOk(st, l, ids, ip, random);
    hide Base, LinkOk, Since, Start, Mine, InitProbe, NoDup;
    InvFrom(st, InitProbe(st, l, ids, ip, random), l);
  }

  lemma AnswerOk(st: State, l: nat, questions: seq<OutQuestion>, answers: seq<Answer>, additional: seq<Answer>,
                 distributed: bool, shared: bool, step: nat)
    requires Inv(st) && l < |st.pcbs|
    ensures Inv(Respond(st, l, questions, answers, additional, distributed, shared, step))
  {
    assert Link(st, l);
    if st.pcbs[l].state > PROBE_3 {
      var m := NewPacket(st, l, true).(questions := questions, answers := answers,
                                       additional := additional, distributed := distributed);
      var r := Respond(st, l, questions, answers, additional, distributed, shared, step);
      if shared { hide Inv, Link; NewPacketOk(st, m, 25 + step % 4 * 25); }
      else {
        hide ProbeLink, Since, Start, Mine, Weak;
        NextIsFresh(st);
        TellElsewhere(st, l, st.pcbs[l], Sent(l, st.now, m));
        InvFrom(st, r, l);
      }
    }
  }

  lemma {:induction false} RemoveAnswerAlike(tx: seq<Packet>, link: nat, rtype: nat, service: Option<nat>)
    ensures var r := RemoveAnswer(tx, link, rtype, service); Alike(tx, r) && SameShape(tx, r)
  {
    if tx != [] {
      hide Dealloc;
      RemoveAnswerAlike(tx[1..], link, rtype, service);
      var r := RemoveAnswer(tx, link, rtype, service);
      var t := RemoveAnswer(tx[1..], link, rtype, service);
      forall i | 0 <= i < |tx| ensures AlikePacket(tx[i], r[i]) && r[i].queued == tx[i].queued {
        if i > 0 { assert r[i] == t[i - 1] && AlikePacket(tx[1..][i - 1], t[i - 1]); }
      }
    }
  }

  lemma RemoveAnswerOk(st: State, link: nat, rtype: nat, service: Option<nat>)
    requires Inv(st)
    ensures Inv(st.(tx := RemoveAnswer(st.tx, link, rtype, service)))
  {
    var r := st.(tx := RemoveAnswer(st.tx, link, rtype, service));
    RemoveAnswerAlike(st.tx, link, rtype, service);
    hide Link, Pairs, Listed, QueuedIds, NoDup, RemoveAnswer;
    SameShapeTxOk(st.tx, r.tx, Pending(st.hand, st.actions), st.now, st.nextId, |st.pcbs|);
    AlikeInv(st, r);
  }

  lemma EnableOk(st: State, l: nat, up: bool, random: nat)
    requires Inv(st) && l < |st.pcbs|
    ensures InHeap(st, st.listed) && AllInHeap(st) && Inv(Enable(st, l, up, random))
  {
    BaseInHeap(st);
    assert Link(st, l);
    var p := st.pcbs[l];
    if !p.ready && !up { FieldOk(st, l, p.(failed := 0)); }
    else {
      hide TxOk, ProbeLink, Since, Start, Mine, InitProbe, NoDup;
      var s := SetPcb(st, l, p.(ready := true));
      SetPcbElsewhere(st, l, p.(ready := true));
      BaseSetPcb(st, l, p.(ready := true));
      BaseInHeap(s);
      InitProbeOk(s, l, st.listed, true, random);
      ElsewhereTwice(st, s, Enable(st, l, up, random), l);
      InvFrom(st, Enable(st, l, up, random), l);
    }
  }

  /** The count of failures is no part of the invariant. */
  lemma FieldOk(st: State, l: nat, p: Pcb)
    requires Inv(st) && l < |st.pcbs| && p == st.pcbs[l].(failed := p.failed)
    ensures Inv(SetPcb(st, l, p))
  {
    hide TxOk, Since, Start, Mine, Spaced, NoDup, Backed;
    assert Link(st, l);
    BaseSetPcb(st, l, p);
    SetPcbElsewhere(st, l, p);
    InvFrom(st, SetPcb(st, l, p), l);
  }

  /**
   * Taking a link down keeps the invariant exactly when the link is ready or has nothing to probe
   * for: otherwise its services stay behind in a link that is off.
   */
  lemma DisableExact(st: State, l: nat)
    requires Inv(st) && l < |st.pcbs|
    ensures Inv(Disable(st, l)) <==> (st.pcbs[l].ready || st.pcbs[l].services == [])
  {
    assert Link(st, l);
    var p, r := st.pcbs[l], Disable(st, l);
    if p.ready {
      hide TxOk, ProbeLink, Since, Start, Mine, NoDup;
      var s := Drop(st, l);
      DropElsewhere(st, l);
      BaseSetPcb(s, l, r.pcbs[l]);
      SetPcbElsewhere(s, l, r.pcbs[l]);
      ElsewhereTwice(st, s, r, l);
      assert Weak(r.pcbs[l], st.hostname != []) by { assert NoDup([]); }
      InvFrom(st, r, l);
    } else if p.services == [] {
      hide Inv, ProbeLink, Since, Start, Mine;
      SettledPcb(st, l, p.(state := OFF));
    } else {
      assert !Weak(r.pcbs[l], r.hostname != []);
      assert !Link(r, l);
    }
  }

  // ---------------------------------------------------------------- steps and runs

  datatype Step = Tick(later: nat)
                | Timer(accepts: seq<bool>)
                | Post
                | Take
                | Act
                | Probe(link: nat, ids: seq<nat>, ip: bool, random: nat)
                | ProbeEvery(ids: seq<nat>, randoms: seq<nat>)
                | Rename(name: text, randoms: seq<nat>)
                | RenameInstance(name: text, randoms: seq<nat>)
                | Register(service: Service, randoms: seq<nat>)
                | Edit(id: nat, service: Service)
                | Unregister(id: nat)
                | Fail(link: nat)
                | Announcement(link: nat, ids: seq<nat>, ip: bool, random: nat)
                | Response(link: nat, questions: seq<OutQuestion>, answers: seq<Answer>, additional: seq<Answer>,
                        distributed: bool, shared: bool, step: nat)
                | Withdraw(link: nat, rtype: nat, whose: Option<nat>)
                | Delegate(name: text)
                | Undelegate(name: text)
                | LinkUp(link: nat, up: bool, random: nat)
                | LinkDown(link: nat)

  /** `_mdns_remap_self_service_hostname` */
  function Remap(heap: seq<Service>, was: text, name: text): (r: seq<Service>)
    ensures |r| == |heap|
  {
    if heap == [] then []
    else
      var first := if heap[0].hostname == Some(was) then heap[0].(hostname := Some(name)) else heap[0];
      [first] + Remap(heap[1..], was, name)
  }

  /** What callers see to: links and services exist, lists of services name none twice. */
  predicate Allowed(st: State, step: Step) {
    match step
    case Tick(later) => st.now <= later
    case Take => st.hand == None && st.actions != []
    case Act => st.hand.Some?
    case Probe(link, ids, ip, _) => link < |st.pcbs| && InHeap(st, ids) && NoDup(ids) && (ids != [] || ip)
    case ProbeEvery(ids, randoms) => InHeap(st, ids) && NoDup(ids) && ids != [] && |randoms| == |st.pcbs|
    case Rename(name, randoms) => name != [] && |randoms| == |st.pcbs|
    case RenameInstance(_, randoms) => |randoms| == |st.pcbs|
    case Register(_, randoms) => |randoms| == |st.pcbs|
    case Edit(id, _) => id < |st.heap|
    case Unregister(id) => id < |st.heap|
    case Fail(link) => link < |st.pcbs|
    case Announcement(link, ids, ip, _) => link < |st.pcbs| && InHeap(st, ids) && NoDup(ids) && (ids != [] || ip)
    case Response(link, _, _, _, _, _, _) => link < |st.pcbs|
    case LinkUp(link, _, _) => link < |st.pcbs|
    case LinkDown(link) => link < |st.pcbs|
    case _ => true
  }

  /** Links and services that are referred to exist. */
  predicate Sane(st: State) {
    AllInHeap(st) && InHeap(st, st.listed) && OnLinks(st.tx, |st.pcbs|)
  }

  function Next(st: State, step: Step): State
    requires Sane(st) && Allowed(st, step)
  {
    match step
    case Tick(later) => st.(now := later)
    case Timer(accepts) => SchedulerRun(st, accepts)
    case Post => st.(actions := st.actions + [Other])
    case Take => st.(hand := Some(st.actions[0]), actions := st.actions[1..])
    case Act => if st.hand.value.Send? then ExecuteSend(st, st.hand.value.id) else st.(hand := None)
    case Probe(link, ids, ip, random) => InitProbe(st, link, ids, ip, random)
    case ProbeEvery(ids, randoms) => ProbeAll(st, ids, false, false, randoms, 0)
    case Rename(name, randoms) => RestartAll(Renamed(st, name), randoms)
    case RenameInstance(name, randoms) => RestartNameless(st.(instance := Some(name)), randoms)
    case Register(service, randoms) => ProbeAll(Registered(st, service), [|st.heap|], false, false, randoms, 0)
    case Edit(id, service) => st.(heap := st.heap[id := service])
    case Unregister(id) => Removed(st.(listed := Strike(st.listed, id)), id)
    case Fail(link) => SetPcb(st, link, st.pcbs[link].(failed := st.pcbs[link].failed + 1))
    case Announcement(link, ids, ip, random) => Announce(st, link, ids, ip, random)
    case Response(link, questions, answers, additional, distributed, shared, n) =>
      Respond(st, link, questions, answers, additional, distributed, shared, n)
    case Withdraw(link, rtype, service) => st.(tx := RemoveAnswer(st.tx, link, rtype, service))
    case Delegate(name) => AddHost(st, name)
    case Undelegate(name) => st.(hosts := WithoutHost(st.hosts, name))
    case LinkUp(link, up, random) => Enable(st, link, up, random)
    case LinkDown(link) => Disable(st, link)
  }

  function Renamed(st: State, name: text): State {
    st.(heap := Remap(st.heap, st.hostname, name), hostname := name)
  }

  /** A new service takes the next identity and the first place in the list. */
  function Registered(st: State, service: Service): State {
    st.(heap := st.heap + [service], listed := [|st.heap|] + st.listed)
  }

  /** No post overtakes a refused one, and a link goes down ready or with nothing to probe for. */
  predicate Safe(st: State, step: Step) {
    match step
    case Timer(accepts) => !Bypasses(st, accepts)
    case LinkDown(link) => link < |st.pcbs| ==> st.pcbs[link].ready || st.pcbs[link].services == []
    case _ => true
  }

  lemma InvSane(st: State)
    requires Inv(st)
    ensures Sane(st)
  {
    hide Link, NoDup;
  }

  /** Renaming touches what no probe in progress is about. */
  lemma RenamedOk(st: State, name: text)
    requires Inv(st) && name != []
    ensures var r := Renamed(st, name);
            Base(r) && forall l :: 0 <= l < |r.pcbs| ==> Link(r, l)
  {
    hide TxOk, Since, Start, Mine, ProbeLink, NoDup;
    var r := Renamed(st, name);
    forall l | 0 <= l < |r.pcbs| ensures Link(r, l) { assert Link(st, l); }
  }

  lemma RegisteredOk(st: State, service: Service)
    requires Inv(st)
    ensures Inv(Registered(st, service))
  {
    hide TxOk, LinkOk, Since, Start, Mine;
    var r := Registered(st, service);
    forall l | 0 <= l < |r.pcbs| ensures Link(r, l) { assert Link(st, l); }
    forall i, j | 0 <= i < j < |r.listed| ensures r.listed[i] != r.listed[j] {
      assert r.listed[j] == st.listed[j - 1];
      if i > 0 { assert r.listed[i] == st.listed[i - 1]; }
    }
  }

  lemma RegisterOk(st: State, service: Service, randoms: seq<nat>)
    requires Inv(st) && |randoms| == |st.pcbs|
    ensures var s := Registered(st, service);
            AllInHeap(s) && Inv(ProbeAll(s, [|st.heap|], false, false, randoms, 0))
  {
    var s := Registered(st, service);
    RegisteredOk(st, service);
    InvHalf(s);
    BaseInHeap(s);
    hide Base, Link;
    ProbeAllOk(s, [|st.heap|], false, false, randoms, 0);
  }

  lemma ListOk(st: State, r: State)
    requires Inv(st) && r == st.(heap := r.heap, listed := r.listed, instance := r.instance, hosts := r.hosts)
    requires |r.heap| >= |st.heap| && InHeap(r, r.listed) && NoDup(r.listed)
    ensures Inv(r)
  {
    hide TxOk, LinkOk, Since, Start, Mine, NoDup;
    forall l | 0 <= l < |r.pcbs| ensures Link(r, l) { assert Link(st, l); }
  }

  /** Delegated hosts are no part of the invariant. */
  lemma HostsOk(st: State, r: State)
    requires Inv(st) && r == st.(hosts := r.hosts)
    ensures Inv(r)
  {
    hide Link, TxOk, NoDup;
    ListOk(st, r);
  }

  lemma UnregisterOk(st: State, id: nat)
    requires Inv(st) && id < |st.heap|
    ensures Inv(Next(st, Unregister(id)))
  {
    InvSane(st);
    StrikeIs(st.listed, id);
    StruckInHeap(st, st.listed, id);
    var s := st.(listed := Strike(st.listed, id));
    hide Link, TxOk;
    ListOk(st, s);
    RemovedOk(s, id);
  }

  lemma EditOk(st: State, id: nat, service: Service)
    requires Inv(st) && id < |st.heap|
    ensures Inv(st.(heap := st.heap[id := service]))
  {
    hide Link, TxOk;
    ListOk(st, st.(heap := st.heap[id := service]));
  }

  /** The restarts that go over all links. */
  lemma RestartsExact(st: State, step: Step)
    requires Inv(st) && Sane(st) && Allowed(st, step)
    requires step.ProbeEvery? || step.Rename? || step.RenameInstance? || step.Register?
    ensures Inv(Next(st, step))
  {
    match step
    case ProbeEvery(ids, randoms) =>
      InvHalf(st);
      hide Base, Link, NoDup;
      ProbeAllOk(st, ids, false, false, randoms, 0);
    case Rename(name, randoms) =>
      RenamedOk(st, name);
      hide Base, Link;
      RestartAllOk(Renamed(st, name), randoms);
    case RenameInstance(name, randoms) =>
      hide Link, TxOk;
      ListOk(st, st.(instance := Some(name)));
      RestartNamelessOk(st.(instance := Some(name)), randoms);
    case Register(service, randoms) =>
      hide Base, Link;
      RegisterOk(st, service, randoms);
  }

  /** The steps of the clock, the timer and the service task. */
  lemma TaskExact(st: State, step: Step)
    requires Inv(st) && Sane(st) && Allowed(st, step)
    requires step.Tick? || step.Timer? || step.Post? || step.Take? || step.Act?
    ensures Inv(Next(st, step)) <==> Safe(st, step)
  {
    hide Inv, SchedulerRun, ExecuteSend, Bypasses;
    match step
    case Tick(later) => TickOk(st, later);
    case Timer(accepts) => TimerExact(st, accepts);
    case Post => PostOk(st);
    case Take => ReceiveOk(st);
    case Act => if st.hand.value.Send? { ExecuteSendOk(st, st.hand.value.id); } else { DoneOk(st); }
  }

  /** The steps of a single link. */
  lemma LinkExact(st: State, step: Step)
    requires Inv(st) && Sane(st) && Allowed(st, step)
    requires step.Probe? || step.Announcement? || step.LinkUp? || step.LinkDown? || step.Fail?
    ensures Inv(Next(st, step)) <==> Safe(st, step)
  {
    hide Inv, InitProbe, Announce, Enable, Disable;
    match step
    case Probe(link, ids, ip, random) => ProbeOk(st, link, ids, ip, random);
    case Announcement(link, ids, ip, random) => AnnounceOk(st, link, ids, ip, random);
    case LinkUp(link, up, random) => EnableOk(st, link, up, random);
    case LinkDown(link) => DisableExact(st, link);
    case Fail(link) => FieldOk(st, link, st.pcbs[link].(failed := st.pcbs[link].failed + 1));
  }

  /** A step keeps the invariant exactly when it is safe. */
  lemma StepExact(st: State, step: Step)
    requires Inv(st) && Allowed(st, step)
    ensures Sane(st) && (Inv(Next(st, step)) <==> Safe(st, step))
  {
    InvSane(st);
    hide Inv, InitProbe, SchedulerRun, ExecuteSend, Announce, Respond, RemoveAnswer, Enable, Disable, SetPcb, Removed,
        Bypasses;
    match step
    case Tick(_) | Timer(_) | Post | Take | Act => TaskExact(st, step);
    case Probe(_, _, _, _) | Announcement(_, _, _, _) | LinkUp(_, _, _) | LinkDown(_) | Fail(_) => LinkExact(st, step);
    case Edit(id, service) => EditOk(st, id, service);
    case Unregister(id) => UnregisterOk(st, id);
    case Response(link, questions, answers, additional, distributed, shared, n) =>
      AnswerOk(st, link, questions, answers, additional, distributed, shared, n);
    case Withdraw(link, rtype, service) => RemoveAnswerOk(st, link, rtype, service);
    case Delegate(name) => HostsOk(st, AddHost(st, name));
    case Undelegate(name) => HostsOk(st, st.(hosts := WithoutHost(st.hosts, name)));
    case _ => RestartsExact(st, step);
  }

  /** A run; a step that its callers would not ask for is passed over. */
  function AfterRun(st: State, steps: seq<Step>): State {
    if steps == [] then st
    else
      var s := AfterRun(st, steps[..|steps| - 1]);
      var step := steps[|steps| - 1];
      if Sane(s) && Allowed(s, step) then Next(s, step) else s
  }

  /** Every step of the run is safe where it is taken. */
  predicate SafeRun(st: State, steps: seq<Step>) {
    steps == [] ||
    (SafeRun(st, steps[..|steps| - 1]) && Safe(AfterRun(st, steps[..|steps| - 1]), steps[|steps| - 1]))
  }

  lemma {:induction false} EveryRun(st: State, steps: seq<Step>)
    requires Inv(st) && SafeRun(st, steps)
    ensures Inv(AfterRun(st, steps))
  {
    hide Inv, Next, Allowed, Safe, Sane;
    if steps != [] {
      var before, step := steps[..|steps| - 1], steps[|steps| - 1];
      EveryRun(st, before);
      if Allowed(AfterRun(st, before), step) { StepExact(AfterRun(st, before), step); }
    }
  }

  /** The responder as it is set up: `links` links, all of them off. */
  function Initial(links: nat, now: nat): State {
    State(now, [], [], None, seq(links, _ => Pcb(OFF, [], false, false, 0, false)), [], None, [], [], [], 0, [])
  }

  lemma InitialOk(links: nat, now: nat)
    ensures Inv(Initial(links, now))
  {
    hide Initial;
    var st := Initial(links, now);
    InitialFields(links, now);
    InitialBase(st);
    hide Base;
    forall l | 0 <= l < |st.pcbs| ensures Link(st, l) {
      hide ProbeLink, Since, Start, Mine;
    }
    hide Link;
  }

  lemma InitialFields(links: nat, now: nat)
    ensures var st := Initial(links, now);
            && st.tx == [] && st.actions == [] && st.hand == None && st.listed == []
            && forall l :: 0 <= l < |st.pcbs| ==> st.pcbs[l] == Pcb(OFF, [], false, false, 0, false)
  {
  }

  lemma InitialBase(st: State)
    requires st.tx == [] && st.actions == [] && st.hand == None && st.listed == []
    requires forall l :: 0 <= l < |st.pcbs| ==> st.pcbs[l].services == []
    ensures Base(st)
  {
    assert Pending(None, []) == [];
  }

  // ---------------------------------------------------------------- what it means

  /**
   * The flagged packets stand at the head of the list, and the send actions that are on their way
   * for listed packets are those packets, in their order.
   */
  lemma FlaggedAreFirst(st: State)
    requires Inv(st)
    ensures var k := Flagged(st.tx);
            && (forall i :: 0 <= i < |st.tx| ==> (st.tx[i].queued <==> i < k))
            && var posted := Listed(Pending(st.hand, st.actions), st.tx);
               |posted| == k && forall i :: 0 <= i < k ==> posted[i] == st.tx[i].id
  {
    hide Link, NoDup, Pending, Listed, QueuedIds;
    BehindFlagged(st.tx);
    var k := Flagged(st.tx);
    forall i | k <= i < |st.tx| ensures !st.tx[i].queued { assert st.tx[k..][i - k] == st.tx[i]; }
    NoneQueued(st.tx[k..]);
    assert st.tx == st.tx[..k] + st.tx[k..];
    QueuedConcat(st.tx[..k], st.tx[k..]);
    AllQueued(st.tx[..k]);
  }

  lemma {:induction false} AllQueued(tx: seq<Packet>)
    requires forall i :: 0 <= i < |tx| ==> tx[i].queued
    ensures |QueuedIds(tx)| == |tx| && forall i :: 0 <= i < |tx| ==> QueuedIds(tx)[i] == tx[i].id
  {
    if tx != [] { AllQueued(tx[1..]); }
  }

  /** A send action is carried out unless its packet has left the list: it is at the head, and flagged. */
  lemma ActionIsCarriedOut(st: State, id: nat)
    requires Inv(st) && st.hand == Some(Send(id)) && IsIn(st.tx, id)
    ensures st.tx[0].id == id && st.tx[0].queued && st.tx[0].sendAt < st.now
  {
    hide Link, NoDup;
    PendingHand(Send(id), st.actions);
    ActionFindsHead(st.tx, id, Pending(None, st.actions), st.now, st.nextId, |st.pcbs|);
  }

  /**
   * While a link probes it has one packet in the list, or at most one if it is not ready; that is a
   * probe, and so is all that left the link since its probing began.
   */
  lemma OnlyProbesWhileProbing(st: State, l: nat)
    requires Inv(st) && l < |st.pcbs| && Probing(st.pcbs[l])
    ensures |Mine(st.tx, l)| <= 1 && (st.pcbs[l].ready ==> |Mine(st.tx, l)| == 1)
    ensures forall i :: 0 <= i < |st.tx| && st.tx[i].link == l ==> !st.tx[i].response
    ensures var hist := Since(st.trace, l);
            && |hist| == st.pcbs[l].state - PROBE_1
            && forall i :: 0 <= i < |hist| ==> hist[i].Sent? && !hist[i].packet.response
  {
    hide Base, Keep, Since, Start, NoDup, Backed, Covers, AllUnicast;
    assert Link(st, l);
    hide Inv;
    forall i | 0 <= i < |st.tx| && st.tx[i].link == l ensures !st.tx[i].response {
      hide Spaced;
      var j := KeepHas(st.tx, OnLink(l), i);
      assert Mine(st.tx, l)[j] == st.tx[i];
    }
  }

  /** Three dispatches of one packet, each more than 250 ms after the one before, and the first well after the start. */
  predicate ThreeProbes(trace: seq<Event>, l: nat) {
    var hist, start := Since(trace, l), Start(trace, l);
    && |hist| == 3 && start.Some? && Spaced(hist, start.value)
    && Covers(hist[0].packet.servers, hist[2].packet.servers) && Covers(hist[1].packet.servers, hist[2].packet.servers)
    && AsksAgain(hist[0].packet.questions, hist[2].packet.questions)
    && AsksAgain(hist[1].packet.questions, hist[2].packet.questions)
  }

  lemma CoversTrans(a: seq<Answer>, b: seq<Answer>, c: seq<Answer>)
    requires Covers(a, b) && Covers(b, c)
    ensures Covers(a, c)
  {
    forall k | 0 <= k < |c| ensures Has(a, c[k].rtype, c[k].service, c[k].host) {
      var j :| 0 <= j < |b| && b[j].rtype == c[k].rtype && b[j].service == c[k].service && b[j].host == c[k].host;
      assert Has(a, b[j].rtype, b[j].service, b[j].host);
    }
  }

  lemma AsksTrans(a: seq<OutQuestion>, b: seq<OutQuestion>, c: seq<OutQuestion>)
    requires AsksAgain(a, b) && AsksAgain(b, c)
    ensures AsksAgain(a, c)
  {
    forall k | 0 <= k < |c| ensures Asked(a, c[k].subject) {
      var j :| 0 <= j < |b| && b[j].subject == c[k].subject;
      assert Asked(a, b[j].subject);
    }
  }

  /** The last probe turns into the first announcement, made of what it proposed. */
  lemma LastProbe(st: State, id: nat, l: nat)
    requires Inv(st) && st.hand == Some(Send(id)) && st.tx != [] && st.tx[0].id == id && st.tx[0].queued
    requires l == st.tx[0].link && l < |st.pcbs| && st.pcbs[l].state == PROBE_3
    ensures var r := ExecuteSend(st, id); var hist := Since(r.trace, l);
            && r.pcbs[l].state == ANNOUNCE_1 && ThreeProbes(r.trace, l)
            && |Mine(r.tx, l)| == 1
            && Mine(r.tx, l)[0].answers == Announced(st, hist[2].packet.servers, |hist[2].packet.servers|)
            && Mine(r.tx, l)[0].sendAt == st.now + 250
  {
    hide Inv, Base, Keep, Since, Start, Announced, AllUnicast, NoDup, Insert, IsIn, Pending, Backed;
    HeadIsProbe(st, id);
    var head, r := st.tx[0], ExecuteSend(st, id);
    var hist, start := Since(st.trace, l), Start(st.trace, l);
    var e := Sent(l, st.now, head.(queued := false));
    DepartedOk(st, id);
    SinceMore(st.trace, e, l);
    SpacedMore(st.pcbs[l], head, hist, start.value, e);
    var s := Departed(st);
    var a := NewPacket(s, l, true).(answers := Announced(s, head.servers, |head.servers|));
    ScheduleNewOk(s, a, 250);
    AnnouncedSame(st, s, head.servers, |head.servers|);
    var all := hist + [e];
    assert Follows(all[0], all[1]) && Follows(all[1], all[2]);
    hide Covers, Has, AsksAgain;
    CoversTrans(all[0].packet.servers, all[1].packet.servers, all[2].packet.servers);
    AsksTrans(all[0].packet.questions, all[1].packet.questions, all[2].packet.questions);
  }

  lemma {:induction false} AnnouncedSame(st: State, s: State, servers: seq<Answer>, n: nat)
    requires n <= |servers| && s.heap == st.heap && ServerOf(s) == ServerOf(st)
    ensures Announced(s, servers, n) == Announced(st, servers, n)
  {
    hide Alloc, AnnounceService, HostItem;
    if n > 0 { AnnouncedSame(st, s, servers, n - 1); }
  }

  predicate Proposes(servers: seq<Answer>, id: nat) {
    exists k :: 0 <= k < |servers| && servers[k].rtype == TYPE_SRV && servers[k].service == Some(id)
  }

  lemma AnnounceServiceNames(l: seq<Answer>, j: nat, id: nat)
    requires Names(AnnounceService(l, j), id)
    ensures Names(l, id) || id == j
  {
  }

  lemma AllocNames(l: seq<Answer>, rtype: nat, service: Option<nat>, host: HostRef, flush: bool, id: nat)
    ensures Names(Alloc(l, rtype, service, host, flush), id) == (Names(l, id) || service == Some(id))
  {
    var r := Alloc(l, rtype, service, host, flush);
    if Names(l, id) { var k :| 0 <= k < |l| && l[k].service == Some(id); assert r[k] == l[k]; }
    if service == Some(id) && r != l { assert r[|l|].service == Some(id); }
  }

  /** The first `n` records announce no service that they do not propose. */
  lemma {:induction false} AnnouncedIsProposed(st: State, servers: seq<Answer>, n: nat, id: nat)
    requires n <= |servers| && Names(Announced(st, servers, n), id)
    ensures Proposes(servers, id)
  {
    hide Names, Alloc, AnnounceService, HostItem;
    if n == 0 { NamesNothing(id); }
    else {
      var l, a := Announced(st, servers, n - 1), servers[n - 1];
      if Names(l, id) { AnnouncedIsProposed(st, servers, n - 1, id); }
      else if a.rtype == TYPE_SRV && a.service.Some? && a.service.value < |st.heap| {
        var host := HostItem(st.heap[a.service.value].hostname, ServerOf(st));
        var m := AnnounceService(l, a.service.value);
        AllocNames(m, TYPE_A, None, host, true, id);
        AllocNames(Alloc(m, TYPE_A, None, host, true), TYPE_AAAA, None, host, true, id);
        AnnounceServiceNames(l, a.service.value, id);
      } else if a.rtype == TYPE_A || a.rtype == TYPE_AAAA {
        AllocNames(l, a.rtype, None, a.host, true, id);
      }
    }
  }

  lemma NamesNothing(id: nat)
    ensures !Names([], id)
  {
  }

  lemma CoversProposes(a: seq<Answer>, b: seq<Answer>, id: nat)
    requires Covers(a, b) && Proposes(b, id)
    ensures Proposes(a, id)
  {
    var k :| 0 <= k < |b| && b[k].rtype == TYPE_SRV && b[k].service == Some(id);
    assert Has(a, b[k].rtype, b[k].service, b[k].host);
    var j :| 0 <= j < |a| && a[j].rtype == b[k].rtype && a[j].service == b[k].service && a[j].host == b[k].host;
  }

  /** No service is announced unless each of the three probes before proposed its record. */
  lemma AnnouncedWasProbed(st: State, id: nat, l: nat, service: nat)
    requires Inv(st) && st.hand == Some(Send(id)) && st.tx != [] && st.tx[0].id == id && st.tx[0].queued
    requires l == st.tx[0].link && l < |st.pcbs| && st.pcbs[l].state == PROBE_3
    requires var mine := Mine(ExecuteSend(st, id).tx, l); |mine| == 1 && Names(mine[0].answers, service)
    ensures var hist := Since(ExecuteSend(st, id).trace, l);
            |hist| == 3 && forall i :: 0 <= i < 3 ==> hist[i].Sent? && Proposes(hist[i].packet.servers, service)
  {
    hide Inv, ExecuteSend, Since, Start, Keep, Names, Announced, Covers, Proposes;
    LastProbe(st, id, l);
    var hist := Since(ExecuteSend(st, id).trace, l);
    AnnouncedIsProposed(st, hist[2].packet.servers, |hist[2].packet.servers|, service);
    CoversProposes(hist[0].packet.servers, hist[2].packet.servers, service);
    CoversProposes(hist[1].packet.servers, hist[2].packet.servers, service);
  }

  // ---------------------------------------------------------------- the ways out of probing

  /** The state of a link after one start: probing anew. */
  lemma InitProbeStates(st: State, l: nat, ids: seq<nat>, ip: bool, random: nat, k: nat)
    requires l < |st.pcbs| && k < |st.pcbs| && InHeap(st, ids) && AllInHeap(st) && st.hostname != []
    ensures var r := InitProbe(st, l, ids, ip, random);
            |r.pcbs| == |st.pcbs| && r.hostname == st.hostname && r.pcbs[k].ready == st.pcbs[k].ready
            && r.pcbs[k].state == if k == l then PROBE_1 else st.pcbs[k].state
  {
    MissingInHeap(st, ids, st.pcbs[l].services);
  }

  /**
   * A link from which a probe was started: what it was probing for is forgotten, or goes on behind
   * the new services.
   */
  function Started(p: Pcb, ids: seq<nat>, ip: bool, clear: bool): Pcb {
    var p := if clear then p.(services := [], running := false) else p;
    p.(state := PROBE_1, services := Merged(p, if Probing(p) then Missing(ids, p.services) else ids),
       probeIp := p.probeIp || ip, running := true)
  }

  lemma InitProbeStarts(st: State, l: nat, ids: seq<nat>, ip: bool, clear: bool, random: nat)
    requires l < |st.pcbs| && InHeap(st, ids) && AllInHeap(st) && st.hostname != []
    ensures var s := if clear then Forget(st, l) else st;
            InitProbe(s, l, ids, ip, random).pcbs == st.pcbs[l := Started(st.pcbs[l], ids, ip, clear)]
    ensures var r := InitProbe(if clear then Forget(st, l) else st, l, ids, ip, random);
            r.hostname == st.hostname && r.heap == st.heap
  {
    var s := if clear then Forget(st, l) else st;
    MissingInHeap(s, ids, s.pcbs[l].services);
  }

  /** Every ready link starts its probe, the others are left alone. */
  lemma {:induction false} ProbeAllStarts(st: State, ids: seq<nat>, ip: bool, clear: bool, randoms: seq<nat>, i: nat,
      k: nat)
    requires i <= |st.pcbs| == |randoms| && k < |st.pcbs| && InHeap(st, ids) && AllInHeap(st) && st.hostname != []
    ensures var r := ProbeAll(st, ids, ip, clear, randoms, i);
            && |r.pcbs| == |st.pcbs|
            && r.pcbs[k] == if i <= k && st.pcbs[k].ready then Started(st.pcbs[k], ids, ip, clear) else st.pcbs[k]
    decreases |st.pcbs| - i
  {
    if i < |st.pcbs| {
      hide InitProbe, Started, Missing;
      var s := if clear then Forget(st, i) else st;
      if st.pcbs[i].ready {
        InitProbeStarts(st, i, ids, ip, clear, randoms[i]);
        ProbeAllStarts(InitProbe(s, i, ids, ip, randoms[i]), ids, ip, clear, randoms, i + 1, k);
      } else {
        ProbeAllStarts(st, ids, ip, clear, randoms, i + 1, k);
      }
    }
  }

  /** What a removal may do to the state of a link. */
  lemma {:induction false} RemoveStates(st: State, tx: seq<Packet>, pcbs: seq<Pcb>, id: nat, k: nat)
    requires id < |st.heap| && OnLinks(tx, |pcbs|) && k < |pcbs|
    ensures var p := RemoveService(st, tx, pcbs, id).1[k];
            p.state == pcbs[k].state
            || (p.state == RUNNING
                && (Probing(pcbs[k]) ==> p.services == [] && !pcbs[k].probeIp && Held(pcbs[k].services, id)))
  {
    if tx != [] {
      var (m, p) := Strip(st, tx[0], pcbs[tx[0].link], id);
      StripLink(st, tx[0], pcbs[tx[0].link], id);
      RunningStays(st, tx[1..], pcbs[m.link := p], id, k);
      RemoveStates(st, tx[1..], pcbs[m.link := p], id, k);
    }
  }

  lemma {:induction false} RunningStays(st: State, tx: seq<Packet>, pcbs: seq<Pcb>, id: nat, k: nat)
    requires id < |st.heap| && OnLinks(tx, |pcbs|) && k < |pcbs|
    ensures pcbs[k].state == RUNNING ==> RemoveService(st, tx, pcbs, id).1[k] == pcbs[k]
  {
    if tx != [] {
      var (m, p) := Strip(st, tx[0], pcbs[tx[0].link], id);
      RunningStays(st, tx[1..], pcbs[m.link := p], id, k);
    }
  }

  predicate WayOut(st: State, step: Step, r: State, l: nat)
    requires l < |st.pcbs| == |r.pcbs|
  {
    var p, q := st.pcbs[l], r.pcbs[l];
    || Probing(q)
    || (step.Act? && q.state == ANNOUNCE_1 && ThreeProbes(r.trace, l))
    || (step.Unregister? && q.state == RUNNING && q.services == [] && !p.probeIp && Held(p.services, step.id))
    || (step == LinkDown(l) && q.state == OFF)
  }

  lemma ActWayOut(st: State, id: nat, l: nat)
    requires Inv(st) && st.hand == Some(Send(id)) && l < |st.pcbs| && Probing(st.pcbs[l]) && Sane(st)
    ensures |ExecuteSend(st, id).pcbs| == |st.pcbs| && WayOut(st, Act, ExecuteSend(st, id), l)
  {
    hide Inv, Sane, ThreeProbes, ExecuteSend;
    if st.tx != [] && st.tx[0].id == id && st.tx[0].queued && st.tx[0].link == l && st.pcbs[l].state == PROBE_3 {
      HeadOnLink(st);
      LastProbe(st, id, l);
    } else {
      HeadOnLink(st);
    }
    SendStates(st, id, l);
  }

  lemma HeadOnLink(st: State)
    requires Sane(st)
    ensures st.tx != [] ==> st.tx[0].link < |st.pcbs|
  {
  }

  /** A packet that goes out moves its own link one state on, and no other. */
  lemma SendStates(st: State, id: nat, l: nat)
    requires (st.tx != [] ==> st.tx[0].link < |st.pcbs|) && l < |st.pcbs| && Probing(st.pcbs[l])
    ensures var r := ExecuteSend(st, id);
            && |r.pcbs| == |st.pcbs|
            && (Probing(r.pcbs[l]) || (st.tx != [] && st.tx[0].id == id && st.tx[0].queued && st.tx[0].link == l
                                       && st.pcbs[l].state == PROBE_3))
  {
    hide Insert, Announced, Multicast;
  }

  lemma ProbingIsNamed(st: State, l: nat)
    requires Inv(st) && l < |st.pcbs| && Probing(st.pcbs[l])
    ensures st.hostname != []
  {
    assert Link(st, l);
  }

  lemma RestartsWayOut(st: State, step: Step, l: nat)
    requires Inv(st) && Sane(st) && Allowed(st, step) && l < |st.pcbs| && Probing(st.pcbs[l])
    requires step.ProbeEvery? || step.Rename? || step.RenameInstance? || step.Register?
    ensures |Next(st, step).pcbs| == |st.pcbs| && Probing(Next(st, step).pcbs[l])
  {
    hide Inv, InitProbe, ProbeAll, Merged, Missing, Nameless;
    ProbingIsNamed(st, l);
    match step
    case ProbeEvery(ids, randoms) => ProbeAllStarts(st, ids, false, false, randoms, 0, l);
    case Rename(name, randoms) =>
      RenamedSane(st, name);
      ProbeAllStarts(Renamed(st, name).(tx := []), st.listed, true, true, randoms, 0, l);
    case RenameInstance(name, randoms) =>
      var s := st.(instance := Some(name));
      var ids := Nameless(s, s.listed);
      if ids != [] { ProbeAllStarts(s, ids, false, true, randoms, 0, l); }
    case Register(service, randoms) =>
      ProbeAllStarts(Registered(st, service), [|st.heap|], false, false, randoms, 0, l);
  }

  lemma RenamedSane(st: State, name: text)
    requires Sane(st)
    ensures Sane(Renamed(st, name))
  {
  }

  /**
   * A link leaves probing in three ways only: it announces, after three dispatches of its probe
   * since it last began anew, each more than 250 ms after the one before; or the last service it
   * probed for is removed; or it is taken down.
   */
  lemma WaysOutOfProbing(st: State, step: Step, l: nat)
    requires Inv(st) && Allowed(st, step) && l < |st.pcbs| && Probing(st.pcbs[l])
    ensures Sane(st) && |Next(st, step).pcbs| == |st.pcbs| && WayOut(st, step, Next(st, step), l)
  {
    InvSane(st);
    assert Link(st, l);
    hide Inv, ThreeProbes, InitProbe, ProbeAll, ExecuteSend, RemoveService, NoDup, InHeap, AllInHeap, OnLinks,
        ProbeLink, Since, Start, Mine;
    if step.ProbeEvery? || step.Rename? || step.RenameInstance? || step.Register? { RestartsWayOut(st, step, l); }
    else if step.Act? { if st.hand.value.Send? { ActWayOut(st, st.hand.value.id, l); } }
    else if step.Unregister? { RemoveStates(st.(listed := Strike(st.listed, step.id)), st.tx, st.pcbs, step.id, l); }
    else { hide Probing; OtherWayOut(st, step, l); }
  }

  lemma OtherWayOut(st: State, step: Step, l: nat)
    requires Sane(st) && Allowed(st, step) && l < |st.pcbs| && Probing(st.pcbs[l]) && st.hostname != []
    requires !step.ProbeEvery? && !step.Rename? && !step.RenameInstance? && !step.Register? && !step.Act? &&
             !step.Unregister?
    ensures |Next(st, step).pcbs| == |st.pcbs|
    ensures Probing(Next(st, step).pcbs[l]) || (step == LinkDown(l) && Next(st, step).pcbs[l].state == OFF)
  {
    hide InitProbe, NoDup, InHeap, AllInHeap, OnLinks, Flag, RemoveAnswer, Insert, WithoutHost;
    match step
    case Probe(link, ids, ip, random) => StartStates(st, link, ids, ip, random, l);
    case Announcement(link, ids, ip, random) => if Probing(st.pcbs[link]) { StartStates(st, link, ids, ip, random, l); }
    case LinkUp(link, up, random) => LinkUpStates(st, link, up, random, l);
    case _ =>
  }

  lemma StartStates(st: State, link: nat, ids: seq<nat>, ip: bool, random: nat, l: nat)
    requires Sane(st) && link < |st.pcbs| && l < |st.pcbs| && InHeap(st, ids) && st.hostname != []
    ensures var r := InitProbe(st, link, ids, ip, random);
            |r.pcbs| == |st.pcbs| && r.pcbs[l].state == if l == link then PROBE_1 else st.pcbs[l].state
  {
    InitProbeStates(st, link, ids, ip, random, l);
  }

  lemma LinkUpStates(st: State, link: nat, up: bool, random: nat, l: nat)
    requires Sane(st) && link < |st.pcbs| && l < |st.pcbs| && st.hostname != []
    ensures var r := Enable(st, link, up, random);
            |r.pcbs| == |st.pcbs| && (r.pcbs[l].state == st.pcbs[l].state || (l == link && r.pcbs[l].state == PROBE_1))
  {
    var p := st.pcbs[link];
    if p.ready || up {
      var s := SetPcb(st, link, p.(ready := true));
      hide InitProbe;
      StartStates(s, link, st.listed, true, random, l);
    }
  }

  // ---------------------------------------------------------------- a link that is probed before it is up

  /**
   * The unsafe way down: a link that is not ready starts to probe, since a packet received on it
   * earlier is still handled, and is then taken down once more. It is off and keeps the services;
   * the next start allots room for the new services only and copies the old ones behind them.
   */
  lemma ServicesLeftBehind(st: State, l: nat, ids: seq<nat>, random: nat)
    requires Inv(st) && l < |st.pcbs| && !st.pcbs[l].ready && st.pcbs[l].state == OFF && st.hostname != []
    requires InHeap(st, ids) && NoDup(ids) && ids != []
    ensures AllInHeap(st)
    ensures var r := Disable(InitProbe(st, l, ids, false, random), l);
            r.pcbs[l].state == OFF && r.pcbs[l].services == ids && !Inv(r)
            && Copied(r.pcbs[l], ids) > Allotted(r.pcbs[l], ids)
  {
    InvSane(st);
    assert Link(st, l);
    var p := st.pcbs[l];
    assert InitProbe(st, l, ids, false, random).pcbs[l].services == ids;
    var r := Disable(InitProbe(st, l, ids, false, random), l);
    assert !Weak(r.pcbs[l], r.hostname != []);
    assert !Link(r, l);
  }

  /**
   * The failing case of removal: a link that is not ready probes for a service, which is then removed;
   * the service is registered no longer, and the link goes on to list it.
   */
  lemma RemovedButListed(st: State, l: nat, id: nat, random: nat)
    requires Inv(st) && Sane(st) && l < |st.pcbs| && id < |st.heap|
    requires !st.pcbs[l].ready && st.pcbs[l].state == OFF && st.hostname != []
    ensures Inv(InitProbe(st, l, [id], false, random))
    ensures Sane(InitProbe(st, l, [id], false, random))
    ensures var r := Next(InitProbe(st, l, [id], false, random), Unregister(id));
            |r.pcbs| == |st.pcbs| && Probing(r.pcbs[l]) && Held(r.pcbs[l].services, id) && !Held(r.listed, id)
  {
    assert Link(st, l);
    assert NoDup([id]);
    ProbeOk(st, l, [id], false, random);
    var s := InitProbe(st, l, [id], false, random);
    InvSane(s);
    assert s.pcbs[l].services == [id] && !s.pcbs[l].ready && s.pcbs[l].state == PROBE_1;
    assert Held([id], id) by { assert [id][0] == id; }
    hide Inv, InitProbe;
    Unlisted(s, l, id);
  }

  lemma Unlisted(st: State, l: nat, id: nat)
    requires Inv(st) && Sane(st) && l < |st.pcbs| && id < |st.heap|
    requires !st.pcbs[l].ready && Probing(st.pcbs[l]) && Held(st.pcbs[l].services, id)
    ensures var r := Next(st, Unregister(id));
            |r.pcbs| == |st.pcbs| && Probing(r.pcbs[l]) && Held(r.pcbs[l].services, id) && !Held(r.listed, id)
  {
    StrikeIs(st.listed, id);
    StruckInHeap(st, st.listed, id);
    var s := st.(listed := Strike(st.listed, id));
    hide Link, TxOk;
    ListOk(st, s);
    RemovalLeavesNothing(s, id);
    UnreadyStays(s, s.tx, s.pcbs, id, l);
  }

  lemma {:induction false} UnreadyStays(st: State, tx: seq<Packet>, pcbs: seq<Pcb>, id: nat, k: nat)
    requires id < |st.heap| && OnLinks(tx, |pcbs|) && k < |pcbs| && !pcbs[k].ready
    ensures RemoveService(st, tx, pcbs, id).1[k] == pcbs[k]
  {
    if tx != [] {
      NotReadyStrip(st, tx[0], pcbs[tx[0].link], id);
      var (m, p) := Strip(st, tx[0], pcbs[tx[0].link], id);
      StripLink(st, tx[0], pcbs[tx[0].link], id);
      hide Strip;
      UnreadyStays(st, tx[1..], pcbs[m.link := p], id, k);
    }
  }

  /** In every state of a safe run the copy stays within its room. */
  lemma CopyFits(st: State, l: nat, ids: seq<nat>)
    requires Inv(st) && l < |st.pcbs|
    ensures Copied(st.pcbs[l], ids) == Allotted(st.pcbs[l], ids)
    ensures NoDup(st.pcbs[l].services) && (!Probing(st.pcbs[l]) ==> st.pcbs[l].services == [])
  {
    assert Link(st, l);
  }
}
