/**
 Taking a service away: it leaves every list of every scheduled packet and what every ready link is
 probing for, and only packets that are left with nothing are dropped.
 */
module ServiceRemoval {
  import opened Bytes
  import opened Txt
  import opened Answers
  import opened TxQueue
  import opened Responder
  import opened Protocol
  import opened ProbeSafety
  import opened Wire

  // ---------------------------------------------------------------- lists of answers

  predicate Names(l: seq<Answer>, id: nat) {
    exists k :: 0 <= k < |l| && l[k].service == Some(id)
  }

  /** Every other answer stays, in its order. */
  lemma {:induction false} WithoutIs(l: seq<Answer>, id: nat)
    ensures var r := Without(l, id);
            && !Names(r, id)
            && (forall k :: 0 <= k < |r| ==> Has(l, r[k].rtype, r[k].service, r[k].host))
            && (forall t, s, h :: s != Some(id) && Has(l, t, s, h) ==> Has(r, t, s, h))
  {
    if l != [] {
      WithoutIs(l[1..], id);
      var t, r := Without(l[1..], id), Without(l, id);
      var d := |r| - |t|;
      forall k | 0 <= k < |r| ensures r[k].service != Some(id) && Has(l, r[k].rtype, r[k].service, r[k].host) {
        if k >= d {
          assert r[k] == t[k - d];
          var j :| 0 <= j < |l[1..]| && l[1..][j].rtype == r[k].rtype && l[1..][j].service == r[k].service &&
              l[1..][j].host == r[k].host;
          assert l[j + 1] == l[1..][j];
        } else { assert r[k] == l[0]; }
      }
      forall t0, s, h | s != Some(id) && Has(l, t0, s, h) ensures Has(r, t0, s, h) {
        var j :| 0 <= j < |l| && l[j].rtype == t0 && l[j].service == s && l[j].host == h;
        if j == 0 { assert r[0] == l[0]; }
        else {
          assert l[1..][j - 1] == l[j];
          assert Has(l[1..], t0, s, h) && Has(t, t0, s, h);
          var k :| 0 <= k < |t| && t[k].rtype == t0 && t[k].service == s && t[k].host == h;
          assert r[k + d] == t[k];
        }
      }
    }
  }

  /** Lists are taken apart piece by piece. */
  lemma {:induction false} WithoutConcat(a: seq<Answer>, b: seq<Answer>, id: nat)
    ensures Without(a + b, id) == Without(a, id) + Without(b, id)
  {
    if a == [] { assert a + b == b; }
    else {
      assert (a + b)[1..] == a[1..] + b;
      WithoutConcat(a[1..], b, id);
    }
  }

  /** A list that does not name the service is left alone. */
  lemma {:induction false} WithoutNothing(l: seq<Answer>, id: nat)
    requires !Names(l, id)
    ensures Without(l, id) == l
  {
    if l != [] {
      assert l[0].service != Some(id);
      assert forall k :: 0 <= k < |l[1..]| ==> l[1..][k] == l[k + 1];
      WithoutNothing(l[1..], id);
    }
  }

  lemma {:induction false} StrikeHeld(ids: seq<nat>, id: nat, x: nat)
    requires NoDup(ids)
    ensures Held(Strike(ids, id), x) == (Held(ids, x) && x != id)
    ensures |Strike(ids, id)| == |ids| - (if Held(ids, id) then 1 else 0)
  {
    if ids != [] {
      var t := ids[1..];
      forall i, j | 0 <= i < j < |t| ensures t[i] != t[j] { assert ids[i + 1] != ids[j + 1]; }
      StrikeHeld(t, id, x);
      HeldCons(ids[0], t, x);
      HeldCons(ids[0], t, id);
      assert ids == [ids[0]] + t;
      if ids[0] == id {
        forall i | 0 <= i < |t| ensures t[i] != id { assert ids[i + 1] != ids[0]; }
      } else {
        HeldCons(ids[0], Strike(t, id), x);
      }
    }
  }

  lemma HeldCons(a: nat, t: seq<nat>, x: nat)
    ensures Held([a] + t, x) == (a == x || Held(t, x))
  {
    if a == x { assert ([a] + t)[0] == x; }
    if Held(t, x) { var i :| 0 <= i < |t| && t[i] == x; assert ([a] + t)[i + 1] == x; }
  }

  lemma {:induction false} StrikeNoDup(ids: seq<nat>, id: nat)
    requires NoDup(ids)
    ensures NoDup(Strike(ids, id))
  {
    if ids != [] && ids[0] != id {
      var t := ids[1..];
      StrikeNoDup(t, id);
      StrikeHeld(t, id, ids[0]);
      forall i | 0 <= i < |t| ensures t[i] != ids[0] { assert ids[i + 1] != ids[0]; }
      assert !Held(Strike(t, id), ids[0]);
    }
  }

  /** The array loses that service and no other. */
  lemma StrikeIs(ids: seq<nat>, id: nat)
    requires NoDup(ids)
    ensures var r := Strike(ids, id);
            && NoDup(r) && !Held(r, id) && |r| == |ids| - (if Held(ids, id) then 1 else 0)
            && (forall i :: 0 <= i < |r| ==> Held(ids, r[i]))
            && (forall x :: Held(r, x) == (Held(ids, x) && x != id))
  {
    var r := Strike(ids, id);
    StrikeNoDup(ids, id);
    forall x ensures Held(r, x) == (Held(ids, x) && x != id) { StrikeHeld(ids, id, x); }
    StrikeHeld(ids, id, id);
    forall i | 0 <= i < |r| ensures Held(ids, r[i]) { assert Held(r, r[i]); }
  }

  lemma {:induction false} StrikeMissing(ids: seq<nat>, id: nat)
    requires !Held(ids, id)
    ensures Strike(ids, id) == ids
  {
    if ids != [] {
      assert ids[0] != id;
      assert forall i :: 0 <= i < |ids[1..]| ==> ids[1..][i] == ids[i + 1];
      StrikeMissing(ids[1..], id);
    }
  }

  lemma {:induction false} UnaskAsks(st: State, asked: seq<OutQuestion>, qs: seq<OutQuestion>, id: nat)
    requires id < |st.heap| && AsksAgain(asked, qs)
    ensures AsksAgain(asked, Unask(st, qs, id))
  {
    hide Asked;
    if qs != [] && !SameType(st, qs[0].subject, st.heap[id]) {
      assert forall k :: 0 <= k < |qs[1..]| ==> qs[1..][k] == qs[k + 1];
      UnaskAsks(st, asked, qs[1..], id);
    }
  }

  lemma {:induction false} UnaskUnicast(st: State, qs: seq<OutQuestion>, id: nat, unicast: bool)
    requires id < |st.heap| && AllUnicast(qs, unicast)
    ensures AllUnicast(Unask(st, qs, id), unicast)
  {
    if qs != [] && !SameType(st, qs[0].subject, st.heap[id]) { UnaskUnicast(st, qs[1..], id, unicast); }
  }

  // ---------------------------------------------------------------- the walk over the packets

  /** The packets as the walk leaves them, before the blank ones are detached. */
  function Stripped(st: State, tx: seq<Packet>, pcbs: seq<Pcb>, id: nat): (r: (seq<Packet>, seq<Pcb>))
    requires id < |st.heap| && OnLinks(tx, |pcbs|)
    ensures |r.0| == |tx| && |r.1| == |pcbs|
  {
    if tx == [] then (tx, pcbs)
    else
      var (m, p) := Strip(st, tx[0], pcbs[tx[0].link], id);
      var (rest, after) := Stripped(st, tx[1..], pcbs[m.link := p], id);
      ([m] + rest, after)
  }

  lemma {:induction false} RemoveIsStrip(st: State, tx: seq<Packet>, pcbs: seq<Pcb>, id: nat)
    requires id < |st.heap| && OnLinks(tx, |pcbs|)
    ensures var s := Stripped(st, tx, pcbs, id); RemoveService(st, tx, pcbs, id) == (Keep(s.0, Filled), s.1)
  {
    hide Strip;
    if tx != [] {
      var (m, p) := Strip(st, tx[0], pcbs[tx[0].link], id);
      StripLink(st, tx[0], pcbs[tx[0].link], id);
      RemoveIsStrip(st, tx[1..], pcbs[m.link := p], id);
      var rest := Stripped(st, tx[1..], pcbs[m.link := p], id).0;
      assert ([m] + rest)[1..] == rest;
      KeepConcat([m], rest, Filled);
      OneFilled(m);
      assert Stripped(st, tx, pcbs, id).0 == [m] + rest;
      assert Keep([m] + rest, Filled) == (if Blank(m) then [] else [m]) + Keep(rest, Filled);
      hide Keep, Stripped;
      assert RemoveService(st, tx, pcbs, id).0 == (if Blank(m) then [] else [m]) + Keep(rest, Filled);
    }
  }

  lemma StripLink(st: State, m: Packet, p: Pcb, id: nat)
    requires id < |st.heap|
    ensures var (n, q) := Strip(st, m, p, id);
            && n == m.(questions := n.questions, answers := Without(m.answers, id),
                       additional := Without(m.additional, id), servers := Without(m.servers, id))
            && (n.questions == m.questions || n.questions == Unask(st, m.questions, id))
            && q == p.(state := q.state, services := q.services, running := q.running)
  {
    hide Without, Unask, Strike, Held;
    var s := Strip(st, m, p, id);
    if !p.ready {
      assert s.0.questions == m.questions && s.1 == p;
    } else if Probing(p) {
      if Held(p.services, id) { assert s.0.questions == Unask(st, m.questions, id); }
      else { assert s.0.questions == m.questions && s.1 == p; }
    } else {
      assert s.0.questions == m.questions;
    }
  }

  /** Each packet on its own: only its questions depend on what its link is doing. */
  lemma {:induction false} StrippedAt(st: State, tx: seq<Packet>, pcbs: seq<Pcb>, id: nat, i: nat)
    requires id < |st.heap| && OnLinks(tx, |pcbs|) && i < |tx|
    ensures var n, m := Stripped(st, tx, pcbs, id).0[i], tx[i];
            && n == m.(questions := n.questions, answers := Without(m.answers, id),
                       additional := Without(m.additional, id), servers := Without(m.servers, id))
            && (n.questions == m.questions || n.questions == Unask(st, m.questions, id))
  {
    hide Strip, Unask, Without;
    var (m, p) := Strip(st, tx[0], pcbs[tx[0].link], id);
    StripLink(st, tx[0], pcbs[tx[0].link], id);
    if i > 0 { StrippedAt(st, tx[1..], pcbs[m.link := p], id, i - 1); }
  }

  /** The walk, for the packets of one link. */
  function StripOn(st: State, mine: seq<Packet>, p: Pcb, id: nat): (seq<Packet>, Pcb)
    requires id < |st.heap|
  {
    if mine == [] then (mine, p)
    else
      var (m, q) := Strip(st, mine[0], p, id);
      var (rest, after) := StripOn(st, mine[1..], q, id);
      ([m] + rest, after)
  }

  lemma MineCons(m: Packet, rest: seq<Packet>, l: nat)
    ensures Mine([m] + rest, l) == if m.link == l then [m] + Mine(rest, l) else Mine(rest, l)
  {
    assert ([m] + rest)[1..] == rest;
  }

  lemma {:induction false} StrippedOn(st: State, tx: seq<Packet>, pcbs: seq<Pcb>, id: nat, l: nat)
    requires id < |st.heap| && OnLinks(tx, |pcbs|) && l < |pcbs|
    ensures var s := Stripped(st, tx, pcbs, id);
            (Mine(s.0, l), s.1[l]) == StripOn(st, Mine(tx, l), pcbs[l], id)
  {
    if tx != [] {
      hide Strip, Keep;
      var (m, p) := Strip(st, tx[0], pcbs[tx[0].link], id);
      StripLink(st, tx[0], pcbs[tx[0].link], id);
      StrippedOn(st, tx[1..], pcbs[m.link := p], id, l);
      var rest := Stripped(st, tx[1..], pcbs[m.link := p], id).0;
      MineCons(m, rest, l);
      MineCons(tx[0], tx[1..], l);
      assert [tx[0]] + tx[1..] == tx;
      if tx[0].link == l { assert ([tx[0]] + Mine(tx[1..], l))[1..] == Mine(tx[1..], l); }
    } else {
      assert Mine(tx, l) == [];
    }
  }

  /** Detaching the blank packets of all links detaches those of each. */
  lemma FilledMine(s: seq<Packet>, l: nat)
    ensures Mine(Keep(s, Filled), l) == Keep(Mine(s, l), Filled)
  {
    KeepTwice(s, Filled, OnLink(l));
    KeepTwice(s, OnLink(l), Filled);
    KeepSame(s, Both(Filled, OnLink(l)), Both(OnLink(l), Filled));
  }

  // ---------------------------------------------------------------- the invariant of the links

  /** A link that does not probe has no services to strike. */
  lemma {:induction false} SettledStrip(st: State, mine: seq<Packet>, p: Pcb, id: nat, named: bool)
    requires id < |st.heap| && Weak(p, named) && !Probing(p)
    ensures var q := StripOn(st, mine, p, id).1; Weak(q, named) && !Probing(q) && q.services == []
  {
    if mine != [] {
      var (m, q) := Strip(st, mine[0], p, id);
      SettledStrip(st, mine[1..], q, id, named);
    }
  }

  /** What is left to probe for is still backed by the packet. */
  lemma StillBacked(servers: seq<Answer>, ids: seq<nat>, left: seq<nat>, ip: bool, id: nat)
    requires Backed(servers, ids, ip)
    requires forall i :: 0 <= i < |left| ==> Held(ids, left[i]) && left[i] != id
    ensures Backed(Without(servers, id), left, ip) && (left != [] || ip ==> Without(servers, id) != [])
  {
    WithoutIs(servers, id);
    var r := Without(servers, id);
    forall i | 0 <= i < |left| ensures Has(r, TYPE_SRV, Some(left[i]), NoHost) {
      assert Held(ids, left[i]);
      var j :| 0 <= j < |ids| && ids[j] == left[i];
      assert Has(servers, TYPE_SRV, Some(ids[j]), NoHost);
    }
    if ip {
      var j :| 0 <= j < |servers| && servers[j].service.None?;
      assert Has(servers, servers[j].rtype, None, servers[j].host);
      assert Has(r, servers[j].rtype, None, servers[j].host);
    }
    if left != [] { assert Has(r, TYPE_SRV, Some(left[0]), NoHost); }
  }

  lemma ResentWithout(last: Event, m: Packet, n: Packet, id: nat)
    requires Resent(last, m) && n.id == m.id && n.sendAt == m.sendAt && n.servers == Without(m.servers, id)
    requires AsksAgain(last.packet.questions, n.questions)
    ensures Resent(last, n)
  {
    hide AsksAgain;
    WithoutIs(m.servers, id);
    forall k | 0 <= k < |n.servers|
      ensures Has(last.packet.servers, n.servers[k].rtype, n.servers[k].service, n.servers[k].host)
    {
      var a := n.servers[k];
      assert Has(m.servers, a.rtype, a.service, a.host);
      var j :| 0 <= j < |m.servers| && m.servers[j].rtype == a.rtype && m.servers[j].service == a.service &&
          m.servers[j].host == a.host;
      assert Has(last.packet.servers, m.servers[j].rtype, m.servers[j].service, m.servers[j].host);
    }
  }

  /** A probing link and its packet: it goes on with what is left, or runs if that is nothing. */
  lemma ProbingStrip(st: State, m: Packet, p: Pcb, hist: seq<Event>, start: Event, id: nat, named: bool)
    requires id < |st.heap| && Weak(p, named) && Probing(p) && ProbePacket(m, hist, start, p)
    requires p.services != [] || p.probeIp
    ensures var (n, q) := Strip(st, m, p, id);
            && Weak(q, named) && (p.ready ==> q.services == Strike(p.services, id))
            && (Probing(q) ==> q.state == p.state && ProbePacket(n, hist, start, q)
                               && (p.ready ==> !Blank(n)) && (q.services != [] || q.probeIp))
  {
    var (n, q) := Strip(st, m, p, id);
    StripLink(st, m, p, id);
    StrikeIs(p.services, id);
    if !Held(p.services, id) { StrikeMissing(p.services, id); }
    UnaskUnicast(st, m.questions, id, hist == []);
    if hist != [] {
      UnaskAsks(st, hist[|hist| - 1].packet.questions, m.questions, id);
      ResentWithout(hist[|hist| - 1], m, n, id);
    }
    hide Resent, AllUnicast, Without, Unask, NoDup, Strike, Backed;
    if p.ready && Probing(q) {
      StruckHeld(p, q, id);
      StillBacked(m.servers, p.services, q.services, p.probeIp, id);
    }
  }

  /** The services left are among the old ones, without the one removed. */
  lemma StruckHeld(p: Pcb, q: Pcb, id: nat)
    requires NoDup(p.services)
    requires q.services == Strike(p.services, id) || q.services == [] ||
             (q.services == p.services && !Held(p.services, id))
    ensures forall i :: 0 <= i < |q.services| ==> Held(p.services, q.services[i]) && q.services[i] != id
  {
    StrikeIs(p.services, id);
  }

  lemma LinkStrip(st: State, mine: seq<Packet>, p: Pcb, hist: seq<Event>, start: Option<Event>, named: bool, id: nat)
    requires id < |st.heap| && LinkOk(p, mine, hist, start, named)
    ensures var (s, q) := StripOn(st, mine, p, id);
            && LinkOk(q, Keep(s, Filled), hist, start, named)
            && q.services == (if p.ready then Strike(p.services, id) else p.services)
  {
    hide Spaced, Strip, Blank, NoDup, ProbePacket;
    if !Probing(p) { SettledStrip(st, mine, p, id, named); }
    else if mine != [] {
      assert mine == [mine[0]] && mine[1..] == [];
      ProbingStrip(st, mine[0], p, hist, start.value, id, named);
      NotReadyStrip(st, mine[0], p, id);
      var (m, q) := Strip(st, mine[0], p, id);
      assert StripOn(st, mine[1..], q, id) == ([], q);
      assert [m] + [] == [m];
      OneFilled(m);
    }
  }

  lemma OneFilled(m: Packet)
    ensures Keep([m], Filled) == if Blank(m) then [] else [m]
  {
    assert [m][1..] == [];
  }

  lemma NotReadyStrip(st: State, m: Packet, p: Pcb, id: nat)
    requires id < |st.heap|
    ensures !p.ready ==> Strip(st, m, p, id).1 == p
    ensures Strip(st, m, p, id).1.ready == p.ready
  {
  }

  lemma StrippedShape(st: State, tx: seq<Packet>, pcbs: seq<Pcb>, id: nat)
    requires id < |st.heap| && OnLinks(tx, |pcbs|)
    ensures SameShape(tx, Stripped(st, tx, pcbs, id).0)
  {
    forall i | 0 <= i < |tx|
      ensures var n, m := Stripped(st, tx, pcbs, id).0[i], tx[i];
              n.id == m.id && n.link == m.link && n.sendAt == m.sendAt && n.queued == m.queued
    {
      StrippedAt(st, tx, pcbs, id, i);
    }
  }

  function Removed(st: State, id: nat): State
    requires id < |st.heap| && OnLinks(st.tx, |st.pcbs|)
  {
    var (tx, pcbs) := RemoveService(st, st.tx, st.pcbs, id);
    st.(tx := tx, pcbs := pcbs)
  }

  lemma RemovedLink(st: State, id: nat, l: nat)
    requires id < |st.heap| && OnLinks(st.tx, |st.pcbs|) && l < |st.pcbs| && Link(st, l)
    ensures var r, p := Removed(st, id), st.pcbs[l];
            Link(r, l) && r.pcbs[l].services == if p.ready then Strike(p.services, id) else p.services
  {
    hide LinkOk, Since, Start, Strip, Keep;
    RemoveIsStrip(st, st.tx, st.pcbs, id);
    var s := Stripped(st, st.tx, st.pcbs, id);
    StrippedOn(st, st.tx, st.pcbs, id, l);
    FilledMine(s.0, l);
    LinkStrip(st, Mine(st.tx, l), st.pcbs[l], Since(st.trace, l), Start(st.trace, l), st.hostname != [], id);
  }

  lemma BaseOnLinks(st: State)
    requires Base(st)
    ensures OnLinks(st.tx, |st.pcbs|)
  {
  }

  lemma StruckInHeap(st: State, ids: seq<nat>, id: nat)
    requires InHeap(st, ids) && NoDup(ids)
    ensures InHeap(st, Strike(ids, id))
  {
    StrikeIs(ids, id);
  }

  lemma RemovedOk(st: State, id: nat)
    requires Inv(st) && id < |st.heap|
    ensures OnLinks(st.tx, |st.pcbs|) && Inv(Removed(st, id))
  {
    BaseOnLinks(st);
    var r := Removed(st, id);
    forall l | 0 <= l < |r.pcbs| ensures Link(r, l) && InHeap(r, r.pcbs[l].services) {
      hide Since, Start, Keep, ProbeLink;
      assert Link(st, l);
      RemovedLink(st, id, l);
      StruckInHeap(st, st.pcbs[l].services, id);
      assert InHeap(st, st.pcbs[l].services);
    }
    RemoveIsStrip(st, st.tx, st.pcbs, id);
    StrippedShape(st, st.tx, st.pcbs, id);
    var s := Stripped(st, st.tx, st.pcbs, id).0;
    hide Link, Stripped, SameShape, Keep, NoDup;
    SameShapeTxOk(st.tx, s, Pending(st.hand, st.actions), st.now, st.nextId, |st.pcbs|);
    KeepTxOk(s, Filled, Pending(st.hand, st.actions), st.now, st.nextId, |st.pcbs|);
  }

  /**
   * After a service is removed no list of a scheduled packet names it and no ready link probes for
   * it; a link that is not ready is left as it was. What else there was stays, in its order, and
   * exactly the packets left with nothing are gone.
   */
  lemma RemovalLeavesNothing(st: State, id: nat)
    requires Inv(st) && id < |st.heap|
    ensures OnLinks(st.tx, |st.pcbs|)
    ensures var r, s := Removed(st, id), Stripped(st, st.tx, st.pcbs, id).0;
            && r.tx == Keep(s, Filled)
            && (forall i | 0 <= i < |s| ::
                  s[i] == st.tx[i].(questions := s[i].questions, answers := Without(st.tx[i].answers, id),
                                    additional := Without(st.tx[i].additional, id),
                                servers := Without(st.tx[i].servers, id)))
            && (forall i | 0 <= i < |r.tx| ::
                  !Names(r.tx[i].answers, id) && !Names(r.tx[i].additional, id) && !Names(r.tx[i].servers, id))
            && (forall l | 0 <= l < |st.pcbs| ::
                  Held(r.pcbs[l].services, id) == (!st.pcbs[l].ready && Held(st.pcbs[l].services, id)))
            && (forall l | 0 <= l < |st.pcbs| && st.pcbs[l].ready ::
                  r.pcbs[l].services == Strike(st.pcbs[l].services, id))
  {
    BaseOnLinks(st);
    RemoveIsStrip(st, st.tx, st.pcbs, id);
    var r, s := Removed(st, id), Stripped(st, st.tx, st.pcbs, id).0;
    hide Base, ProbeLink, Since, Start, Stripped, RemoveService, Without, Strike;
    forall i | 0 <= i < |s|
      ensures s[i] == st.tx[i].(questions := s[i].questions, answers := Without(st.tx[i].answers, id),
                                additional := Without(st.tx[i].additional, id),
                                servers := Without(st.tx[i].servers, id))
      ensures !Names(s[i].answers, id) && !Names(s[i].additional, id) && !Names(s[i].servers, id)
    {
      StrippedAt(st, st.tx, st.pcbs, id, i);
      WithoutIs(st.tx[i].answers, id);
      WithoutIs(st.tx[i].additional, id);
      WithoutIs(st.tx[i].servers, id);
    }
    forall i | 0 <= i < |r.tx|
      ensures !Names(r.tx[i].answers, id) && !Names(r.tx[i].additional, id) && !Names(r.tx[i].servers, id)
    {
      var j := KeepFrom(s, Filled, i);
    }
    forall l | 0 <= l < |st.pcbs|
      ensures st.pcbs[l].ready ==> r.pcbs[l].services == Strike(st.pcbs[l].services, id)
      ensures Held(r.pcbs[l].services, id) == (!st.pcbs[l].ready && Held(st.pcbs[l].services, id))
    {
      assert Link(st, l);
      RemovedLink(st, id, l);
      StrikeIs(st.pcbs[l].services, id);
    }
  }
}
