/**
 What announcements hold (section 8.3 of RFC 6762): all records of every service that was probed for and
 nothing else; and how often they are sent.
 */
module Announcing {
  import opened Bytes
  import opened Lists
  import opened Txt
  import opened Answers
  import opened TxQueue
  import opened Responder
  import opened Protocol
  import opened ProbeSafety
  import opened ServiceRemoval
  import opened ResponderRuns
  import opened ReplyContents
  import opened Wire

  // ---------------------------------------------------------------- the records of a service

  /** One of the four records that announce service `id`. */
  predicate Announces(t: nat, s: Option<nat>, h: HostRef, id: nat) {
    t in {TYPE_SDPTR, TYPE_PTR, TYPE_SRV, TYPE_TXT} && s == Some(id) && h == NoHost
  }

  /** An address record of the host of service `id`. */
  predicate Locates(st: State, t: nat, s: Option<nat>, h: HostRef, id: nat)
    requires id < |st.heap|
  {
    IsAddress(t) && s.None? && IsHostOf(h, st.heap[id].hostname, ServerOf(st))
  }

  lemma AnnounceServiceHas(l: seq<Answer>, id: nat, t: nat, s: Option<nat>, h: HostRef)
    ensures Has(AnnounceService(l, id), t, s, h) == (Has(l, t, s, h) || Announces(t, s, h, id))
  {
    var one := Alloc(l, TYPE_SDPTR, Some(id), NoHost, false);
    var two := Alloc(one, TYPE_PTR, Some(id), NoHost, false);
    var three := Alloc(two, TYPE_SRV, Some(id), NoHost, true);
    AllocHas(l, TYPE_SDPTR, Some(id), NoHost, false, t, s, h);
    AllocHas(one, TYPE_PTR, Some(id), NoHost, false, t, s, h);
    AllocHas(two, TYPE_SRV, Some(id), NoHost, true, t, s, h);
    AllocHas(three, TYPE_TXT, Some(id), NoHost, true, t, s, h);
    hide Has, Alloc;
  }

  /** The list grows by records that flush caches, save the shared ones, and by no goodbyes. */
  predicate Fresh(l: seq<Answer>, r: seq<Answer>) {
    l <= r && forall k :: |l| <= k < |r| ==> !r[k].bye && r[k].flush == !IsShared(r[k])
  }

  lemma AllocFresh(l: seq<Answer>, m: seq<Answer>, t: nat, s: Option<nat>, h: HostRef, flush: bool)
    requires Fresh(l, m) && flush == !IsShared(Answer(t, s, h, flush, false))
    ensures Fresh(l, Alloc(m, t, s, h, flush))
  {
    hide Has;
  }

  lemma AnnounceServiceFresh(l: seq<Answer>, m: seq<Answer>, id: nat)
    requires Fresh(l, m)
    ensures Fresh(l, AnnounceService(m, id))
  {
    hide Fresh, Alloc;
    var one := Alloc(m, TYPE_SDPTR, Some(id), NoHost, false);
    var two := Alloc(one, TYPE_PTR, Some(id), NoHost, false);
    var three := Alloc(two, TYPE_SRV, Some(id), NoHost, true);
    AllocFresh(l, m, TYPE_SDPTR, Some(id), NoHost, false);
    AllocFresh(l, one, TYPE_PTR, Some(id), NoHost, false);
    AllocFresh(l, two, TYPE_SRV, Some(id), NoHost, true);
    AllocFresh(l, three, TYPE_TXT, Some(id), NoHost, true);
  }

  lemma HostFresh(l: seq<Answer>, m: seq<Answer>, host: HostRef)
    requires Fresh(l, m)
    ensures Fresh(l, AllocHost(m, host, true))
  {
    hide Fresh, Alloc;
    AllocFresh(l, m, TYPE_A, None, host, true);
    AllocFresh(l, Alloc(m, TYPE_A, None, host, true), TYPE_AAAA, None, host, true);
  }

  // ---------------------------------------------------------------- the announcement made of a probe

  /** Record `a` of the probe becomes that record of the announcement. */
  predicate Becomes(st: State, a: Answer, t: nat, s: Option<nat>, h: HostRef) {
    || (a.rtype == TYPE_SRV && a.service.Some? && a.service.value < |st.heap|
        && (Announces(t, s, h, a.service.value) || Locates(st, t, s, h, a.service.value)))
    || (IsAddress(a.rtype) && t == a.rtype && s.None? && h == a.host)
  }

  predicate MadeOf(st: State, servers: seq<Answer>, n: nat, t: nat, s: Option<nat>, h: HostRef)
    requires n <= |servers|
  {
    exists k :: 0 <= k < n && Becomes(st, servers[k], t, s, h)
  }

  lemma MadeOfMore(st: State, servers: seq<Answer>, n: nat, t: nat, s: Option<nat>, h: HostRef)
    requires 0 < n <= |servers|
    ensures MadeOf(st, servers, n, t, s, h) ==
            (MadeOf(st, servers, n - 1, t, s, h) || Becomes(st, servers[n - 1], t, s, h))
  {
    hide Becomes;
    if MadeOf(st, servers, n - 1, t, s, h) {
      var k :| 0 <= k < n - 1 && Becomes(st, servers[k], t, s, h);
      assert MadeOf(st, servers, n, t, s, h);
    }
  }

  /** The announcement holds exactly what the records of the probe become. */
  lemma {:induction false} AnnouncedIsExact(st: State, servers: seq<Answer>, n: nat, t: nat, s: Option<nat>, h: HostRef)
    requires n <= |servers|
    ensures Has(Announced(st, servers, n), t, s, h) == MadeOf(st, servers, n, t, s, h)
    ensures Fresh([], Announced(st, servers, n))
  {
    hide Has, Alloc, AnnounceService, HostItem, IsHostOf, MadeOf, Fresh;
    if n == 0 { NothingMade(st, servers, t, s, h); }
    else {
      AnnouncedIsExact(st, servers, n - 1, t, s, h);
      MadeOfMore(st, servers, n, t, s, h);
      var l, a := Announced(st, servers, n - 1), servers[n - 1];
      if a.rtype == TYPE_SRV && a.service.Some? && a.service.value < |st.heap| {
        var id := a.service.value;
        var host, m := HostItem(st.heap[id].hostname, ServerOf(st)), AnnounceService(l, id);
        AnnounceServiceHas(l, id, t, s, h);
        AnnounceServiceFresh([], l, id);
        AddressesAre(m, None, host, true, t, s, h);
        HostItemIs(st.heap[id].hostname, ServerOf(st), h);
        HostFresh([], m, host);
      } else if IsAddress(a.rtype) {
        AllocHas(l, a.rtype, None, a.host, true, t, s, h);
        AllocFresh([], l, a.rtype, None, a.host, true);
      }
    }
  }

  lemma NothingMade(st: State, servers: seq<Answer>, t: nat, s: Option<nat>, h: HostRef)
    ensures !Has([], t, s, h) && !MadeOf(st, servers, 0, t, s, h) && Fresh([], [])
  {
  }

  // ---------------------------------------------------------------- records of hosts

  /** The hosts of the services, or the own one if there are none. */
  predicate HostOfSome(st: State, ids: seq<nat>, n: nat, h: HostRef)
    requires n <= |ids| && InHeap(st, ids)
  {
    exists i :: 0 <= i < n && IsHostOf(h, st.heap[ids[i]].hostname, ServerOf(st))
  }

  lemma HostOfMore(st: State, ids: seq<nat>, n: nat, h: HostRef)
    requires 0 < n <= |ids| && InHeap(st, ids)
    ensures HostOfSome(st, ids, n, h) ==
            (HostOfSome(st, ids, n - 1, h) || IsHostOf(h, st.heap[ids[n - 1]].hostname, ServerOf(st)))
  {
    hide IsHostOf;
    if HostOfSome(st, ids, n - 1, h) {
      var i :| 0 <= i < n - 1 && IsHostOf(h, st.heap[ids[i]].hostname, ServerOf(st));
      assert HostOfSome(st, ids, n, h);
    }
  }

  lemma {:induction false} HostRecordsHas(st: State, l: seq<Answer>, ids: seq<nat>, flush: bool, n: nat,
                                          t: nat, s: Option<nat>, h: HostRef)
    requires n <= |ids| && InHeap(st, ids)
    ensures Has(HostRecords(st, l, ids, flush, n), t, s, h) ==
            (Has(l, t, s, h) || (IsAddress(t) && s.None? && HostOfSome(st, ids, n, h)))
    ensures flush ==> Fresh(l, HostRecords(st, l, ids, flush, n))
  {
    hide Has, Alloc, HostItem, IsHostOf, HostOfSome;
    if n > 0 {
      hide Fresh;
      HostRecordsHas(st, l, ids, flush, n - 1, t, s, h);
      HostOfMore(st, ids, n, h);
      var m, name := HostRecords(st, l, ids, flush, n - 1), st.heap[ids[n - 1]].hostname;
      AddressesAre(m, None, HostItem(name, ServerOf(st)), flush, t, s, h);
      HostItemIs(name, ServerOf(st), h);
      if flush { HostFresh(l, m, HostItem(name, ServerOf(st))); }
    } else {
      assert !HostOfSome(st, ids, 0, h) by { NoHostYet(st, ids, h); }
    }
  }

  lemma NoHostYet(st: State, ids: seq<nat>, h: HostRef)
    requires InHeap(st, ids)
    ensures !HostOfSome(st, ids, 0, h)
  {
  }

  /** A host that is proposed or announced: that of a service, or the own one if there is no service. */
  predicate IsTheHost(st: State, ids: seq<nat>, h: HostRef)
    requires InHeap(st, ids)
  {
    if ids == [] then IsHostOf(h, Some(st.hostname), ServerOf(st)) else HostOfSome(st, ids, |ids|, h)
  }

  lemma HostsHas(st: State, l: seq<Answer>, ids: seq<nat>, flush: bool, t: nat, s: Option<nat>, h: HostRef)
    requires InHeap(st, ids)
    ensures Has(Hosts(st, l, ids, flush), t, s, h) ==
            (Has(l, t, s, h) || (IsAddress(t) && s.None? && IsTheHost(st, ids, h)))
    ensures flush ==> Fresh(l, Hosts(st, l, ids, flush))
  {
    hide Has, HostItem, IsHostOf, HostOfSome, Fresh;
    if ids == [] {
      AddressesAre(l, None, HostItem(Some(st.hostname), ServerOf(st)), flush, t, s, h);
      HostItemIs(Some(st.hostname), ServerOf(st), h);
      assert Fresh(l, l) by { NothingFresh(l); }
      if flush { HostFresh(l, l, HostItem(Some(st.hostname), ServerOf(st))); }
    } else {
      HostRecordsHas(st, l, ids, flush, |ids|, t, s, h);
    }
  }

  lemma NothingFresh(l: seq<Answer>)
    ensures Fresh(l, l)
  {
  }

  // ---------------------------------------------------------------- announcements of services

  predicate AnnouncesSome(t: nat, s: Option<nat>, h: HostRef, ids: seq<nat>, n: nat)
    requires n <= |ids|
  {
    exists i :: 0 <= i < n && Announces(t, s, h, ids[i])
  }

  lemma {:induction false} AnnounceServicesHas(l: seq<Answer>, ids: seq<nat>, n: nat,
                                               t: nat, s: Option<nat>, h: HostRef)
    requires n <= |ids|
    ensures Has(AnnounceServices(l, ids, n), t, s, h) == (Has(l, t, s, h) || AnnouncesSome(t, s, h, ids, n))
    ensures Fresh(l, AnnounceServices(l, ids, n))
  {
    hide Has, AnnounceService, Announces;
    if n > 0 {
      hide Fresh;
      AnnounceServicesHas(l, ids, n - 1, t, s, h);
      AnnounceServiceHas(AnnounceServices(l, ids, n - 1), ids[n - 1], t, s, h);
      AnnounceServiceFresh(l, AnnounceServices(l, ids, n - 1), ids[n - 1]);
      if AnnouncesSome(t, s, h, ids, n - 1) {
        var i :| 0 <= i < n - 1 && Announces(t, s, h, ids[i]);
        assert AnnouncesSome(t, s, h, ids, n);
      }
    }
  }

  /** The records for a call to announce services, and the hosts too if `ip`. */
  predicate Called(st: State, ids: seq<nat>, ip: bool, t: nat, s: Option<nat>, h: HostRef)
    requires InHeap(st, ids)
  {
    AnnouncesSome(t, s, h, ids, |ids|) || (ip && IsTheHostRecord(st, ids, t, s, h))
  }

  predicate IsTheHostRecord(st: State, ids: seq<nat>, t: nat, s: Option<nat>, h: HostRef)
    requires InHeap(st, ids)
  {
    IsAddress(t) && s.None? && IsTheHost(st, ids, h)
  }

  // ---------------------------------------------------------------- the call to announce

  /** A running link: one new response, due at once, with the records called for, the hosts in its servers. */
  lemma AnnounceRunning(st: State, l: nat, ids: seq<nat>, ip: bool, random: nat, t: nat, s: Option<nat>, h: HostRef)
    requires l < |st.pcbs| && InHeap(st, ids) && AllInHeap(st)
    requires st.pcbs[l].ready && st.pcbs[l].state == RUNNING && st.hostname != []
    ensures var r, k := Announce(st, l, ids, ip, random), Position(st.tx, st.now);
            && r.pcbs == st.pcbs[l := st.pcbs[l].(state := ANNOUNCE_1)]
            && |r.tx| == |st.tx| + 1 && k < |r.tx| && r.tx == st.tx[..k] + [r.tx[k]] + st.tx[k..]
            && var m := r.tx[k];
               && m == Packet(st.nextId, l, st.now, false, true, false, [], m.answers, [], m.servers)
               && Has(m.answers, t, s, h) == AnnouncesSome(t, s, h, ids, |ids|)
               && Has(m.servers, t, s, h) == (ip && IsTheHostRecord(st, ids, t, s, h))
               && Fresh([], m.answers) && Fresh([], m.servers)
  {
    hide Has, Announces, IsTheHost, Hosts, AnnounceServices, Fresh, Position, AllInHeap, InHeap;
    AnnounceServicesHas([], ids, |ids|, t, s, h);
    if ip { HostsHas(st, [], ids, true, t, s, h); }
    NothingFresh([]);
    NoAnswer(t, s, h);
  }

  lemma NoAnswer(t: nat, s: Option<nat>, h: HostRef)
    ensures !Has([], t, s, h)
  {
  }

  /** An announcing link: the records called for enter the answers of its waiting packet, if there is one. */
  lemma AnnounceWaiting(st: State, l: nat, ids: seq<nat>, ip: bool, random: nat, t: nat, s: Option<nat>, h: HostRef)
    requires l < |st.pcbs| && InHeap(st, ids) && AllInHeap(st) && st.pcbs[l].ready && Announcing(st.pcbs[l])
    ensures var r, k := Announce(st, l, ids, ip, random), FirstOf(st.tx, l);
            if k == |st.tx| then r == st
            else
              && r.pcbs == st.pcbs[l := st.pcbs[l].(state := ANNOUNCE_1)] && |r.tx| == |st.tx|
              && r.tx == st.tx[k := r.tx[k]]
              && var m, n := st.tx[k], r.tx[k];
                 && n == m.(answers := n.answers, additional := n.additional)
                 && Has(n.answers, t, s, h) == (Has(m.answers, t, s, h) || Called(st, ids, ip, t, s, h))
                 && Fresh(m.answers, n.answers)
                 && (!ip ==> n.additional == m.additional)
                 && (Has(m.additional, t, s, h) && !(ip && IsAddress(t) && s.None?) ==> Has(n.additional, t, s, h))
                 && (Has(n.additional, t, s, h) ==> Has(m.additional, t, s, h))
  {
    hide Has, Announces, IsTheHost, Hosts, AnnounceServices, Fresh, Dealloc, FirstOf, AllInHeap, InHeap;
    var k := FirstOf(st.tx, l);
    if k < |st.tx| {
      var m := st.tx[k];
      AnnounceServicesHas(m.answers, ids, |ids|, t, s, h);
      if ip {
        var some := AnnounceServices(m.answers, ids, |ids|);
        HostsHas(st, some, ids, true, t, s, h);
        FreshTwice(m.answers, some, Hosts(st, some, ids, true));
        DeallocHas(m.additional, TYPE_A, None, t, s, h);
        DeallocHas(Dealloc(m.additional, TYPE_A, None), TYPE_AAAA, None, t, s, h);
      }
    }
  }

  lemma FreshTwice(l: seq<Answer>, m: seq<Answer>, r: seq<Answer>)
    requires Fresh(l, m) && Fresh(m, r)
    ensures Fresh(l, r)
  {
  }

  /** The first record of that type and service is missing from the list, and no other. */
  predicate LessOne(l: seq<Answer>, r: seq<Answer>, rtype: nat, service: Option<nat>) {
    || (r == l && forall k :: 0 <= k < |l| ==> !(l[k].rtype == rtype && l[k].service == service))
    || exists k :: 0 <= k < |l| && IsFirst(l, rtype, service, k) && r == l[..k] + l[k + 1..]
  }

  predicate IsFirst(l: seq<Answer>, rtype: nat, service: Option<nat>, k: nat)
    requires k < |l|
  {
    && l[k].rtype == rtype && l[k].service == service
    && forall j :: 0 <= j < k ==> !(l[j].rtype == rtype && l[j].service == service)
  }

  lemma {:induction false} DeallocIs(l: seq<Answer>, rtype: nat, service: Option<nat>)
    ensures LessOne(l, Dealloc(l, rtype, service), rtype, service)
  {
    if l != [] {
      if l[0].rtype == rtype && l[0].service == service {
        assert IsFirst(l, rtype, service, 0) && l[..0] + l[0 + 1..] == l[1..];
      } else {
        DeallocIs(l[1..], rtype, service);
        DeallocRest(l, Dealloc(l[1..], rtype, service), rtype, service);
        hide LessOne;
      }
    }
  }

  lemma DeallocRest(l: seq<Answer>, r: seq<Answer>, rtype: nat, service: Option<nat>)
    requires l != [] && !(l[0].rtype == rtype && l[0].service == service) && LessOne(l[1..], r, rtype, service)
    ensures LessOne(l, [l[0]] + r, rtype, service)
  {
    var t := l[1..];
    assert forall k :: 0 < k < |l| ==> l[k] == t[k - 1];
    if r == t && forall k :: 0 <= k < |t| ==> !(t[k].rtype == rtype && t[k].service == service) {
      assert [l[0]] + t == l;
    } else {
      var k :| 0 <= k < |t| && IsFirst(t, rtype, service, k) && r == t[..k] + t[k + 1..];
      FirstOfRest(l, rtype, service, k);
      TakenOut(l, k + 1);
      hide IsFirst;
    }
  }

  lemma FirstOfRest(l: seq<Answer>, rtype: nat, service: Option<nat>, k: nat)
    requires l != [] && !(l[0].rtype == rtype && l[0].service == service)
    requires k < |l[1..]| && IsFirst(l[1..], rtype, service, k)
    ensures IsFirst(l, rtype, service, k + 1)
  {
    forall j | 0 <= j < k + 1 ensures !(l[j].rtype == rtype && l[j].service == service) {
      if j > 0 { assert l[1..][j - 1] == l[j]; }
    }
  }

  lemma DeallocHas(l: seq<Answer>, rtype: nat, service: Option<nat>, t: nat, s: Option<nat>, h: HostRef)
    ensures var r := Dealloc(l, rtype, service);
            && (Has(r, t, s, h) ==> Has(l, t, s, h))
            && (Has(l, t, s, h) && !(t == rtype && s == service) ==> Has(r, t, s, h))
  {
    DeallocIs(l, rtype, service);
    hide Dealloc, Has;
    var r := Dealloc(l, rtype, service);
    if r != l {
      var k :| 0 <= k < |l| && IsFirst(l, rtype, service, k) && r == l[..k] + l[k + 1..];
      HasBut(l, k, t, s, h);
    }
  }

  lemma HasBut(l: seq<Answer>, k: nat, t: nat, s: Option<nat>, h: HostRef)
    requires k < |l|
    ensures var r := l[..k] + l[k + 1..];
            && (Has(r, t, s, h) ==> Has(l, t, s, h))
            && (Has(l, t, s, h) && !(l[k].rtype == t && l[k].service == s) ==> Has(r, t, s, h))
  {
    var r := l[..k] + l[k + 1..];
    if Has(r, t, s, h) {
      var i :| 0 <= i < |r| && r[i].rtype == t && r[i].service == s && r[i].host == h;
      assert r[i] == l[if i < k then i else i + 1];
    }
    if Has(l, t, s, h) && !(l[k].rtype == t && l[k].service == s) {
      var i :| 0 <= i < |l| && l[i].rtype == t && l[i].service == s && l[i].host == h;
      assert l[i] == r[if i < k then i else i - 1];
    }
  }

  // ---------------------------------------------------------------- the first announcement of a link

  /** What a link announces when its last probe has left: exactly what that probe proposed becomes. */
  lemma FirstAnnouncement(st: State, id: nat, l: nat, t: nat, s: Option<nat>, h: HostRef)
    requires Inv(st) && st.hand == Some(Send(id)) && st.tx != [] && st.tx[0].id == id && st.tx[0].queued
    requires l == st.tx[0].link && l < |st.pcbs| && st.pcbs[l].state == PROBE_3
    ensures var r := ExecuteSend(st, id); var hist := Since(r.trace, l);
            && |hist| == 3 && hist[2].Sent? && |Mine(r.tx, l)| == 1
            && var servers, answers := hist[2].packet.servers, Mine(r.tx, l)[0].answers;
               Has(answers, t, s, h) == MadeOf(st, servers, |servers|, t, s, h) && Fresh([], answers)
  {
    LastProbe(st, id, l);
    hide Inv, ExecuteSend, Since, Start, Mine, Announced, MadeOf, Has, Fresh;
    var servers := Since(ExecuteSend(st, id).trace, l)[2].packet.servers;
    AnnouncedIsExact(st, servers, |servers|, t, s, h);
  }

  /** Every service a ready link was probing for is announced: its four records and the addresses of its host. */
  lemma ProbedIsAnnounced(st: State, id: nat, l: nat, service: nat, t: nat, h: HostRef)
    requires Inv(st) && st.hand == Some(Send(id)) && st.tx != [] && st.tx[0].id == id && st.tx[0].queued
    requires l == st.tx[0].link && l < |st.pcbs| && st.pcbs[l].state == PROBE_3
    requires st.pcbs[l].ready && Held(st.pcbs[l].services, service)
    ensures service < |st.heap| && |Mine(ExecuteSend(st, id).tx, l)| == 1
    ensures var answers := Mine(ExecuteSend(st, id).tx, l)[0].answers;
            && (t in {TYPE_SDPTR, TYPE_PTR, TYPE_SRV, TYPE_TXT} ==> Has(answers, t, Some(service), NoHost))
            && (IsAddress(t) && IsHostOf(h, st.heap[service].hostname, ServerOf(st)) ==> Has(answers, t, None, h))
  {
    FirstAnnouncement(st, id, l, t, Some(service), NoHost);
    FirstAnnouncement(st, id, l, t, None, h);
    LastServers(st, id, l);
    IsBacked(st, id, l, service);
    hide Inv, ExecuteSend, Since, Start, Mine, Fresh, IsHostOf, MadeOf;
    var servers := st.tx[0].servers;
    var k :| 0 <= k < |servers| && servers[k].rtype == TYPE_SRV && servers[k].service == Some(service)
             && servers[k].host == NoHost;
    hide Has;
    if t in {TYPE_SDPTR, TYPE_PTR, TYPE_SRV, TYPE_TXT} {
      assert Becomes(st, servers[k], t, Some(service), NoHost);
      Made(st, servers, k, t, Some(service), NoHost);
    } else if IsAddress(t) && IsHostOf(h, st.heap[service].hostname, ServerOf(st)) {
      assert Becomes(st, servers[k], t, None, h);
      Made(st, servers, k, t, None, h);
    }
  }

  lemma Made(st: State, servers: seq<Answer>, k: nat, t: nat, s: Option<nat>, h: HostRef)
    requires k < |servers| && Becomes(st, servers[k], t, s, h)
    ensures MadeOf(st, servers, |servers|, t, s, h)
  {
  }

  lemma LastServers(st: State, id: nat, l: nat)
    requires Inv(st) && st.hand == Some(Send(id)) && st.tx != [] && st.tx[0].id == id && st.tx[0].queued
    requires l == st.tx[0].link && l < |st.pcbs| && st.pcbs[l].state == PROBE_3
    ensures var hist := Since(ExecuteSend(st, id).trace, l);
            |hist| == 3 && hist[2].Sent? && hist[2].packet.servers == st.tx[0].servers
  {
    LastProbe(st, id, l);
    SinceMore(st.trace, Sent(l, st.now, st.tx[0].(queued := false)), l);
    hide Inv, Since, Start, Mine, ThreeProbes, Announced, Insert;
  }

  /** The packet a ready link probes with proposes every service it probes for. */
  lemma IsBacked(st: State, id: nat, l: nat, service: nat)
    requires Inv(st) && st.hand == Some(Send(id)) && st.tx != [] && st.tx[0].id == id
    requires l == st.tx[0].link && l < |st.pcbs| && Probing(st.pcbs[l]) && st.pcbs[l].ready
    requires Held(st.pcbs[l].services, service)
    ensures Has(st.tx[0].servers, TYPE_SRV, Some(service), NoHost) && service < |st.heap|
  {
    HeadIsProbe(st, id);
    hide TxOk, Keep, Since, Start, Spaced, NoDup, Has;
    var i :| 0 <= i < |st.pcbs[l].services| && st.pcbs[l].services[i] == service;
    assert InHeap(st, st.pcbs[l].services);
  }

  // ---------------------------------------------------------------- three times, a second apart

  /** The same packet at another time. */
  predicate SamePacket(a: Packet, m: Packet) {
    m == a.(sendAt := m.sendAt, queued := m.queued)
  }

  /** The dispatches of `hist` from `from` on are of packet `a`: the first behind `due`, each later one a second on. */
  predicate Dispatches(hist: seq<Event>, from: nat, a: Packet, due: nat) {
    forall i :: from <= i < |hist| ==>
      hist[i].Sent? && SamePacket(a, hist[i].packet) && hist[i].at > Deadline(hist, from, i, due)
  }

  /** When dispatch `i` is due. */
  function Deadline(hist: seq<Event>, from: nat, i: nat, due: nat): nat
    requires from <= i <= |hist|
  {
    if i == from then due else if hist[i - 1].Sent? then hist[i - 1].at + 1000 else due
  }

  /**
   A link that announces `a`: behind the `from` dispatches it had before, `a` has left once for each state
   it is beyond the first, and is scheduled a second behind the last dispatch until it runs.
   */
  predicate Phase(p: Pcb, mine: seq<Packet>, hist: seq<Event>, from: nat, a: Packet, due: nat) {
    && from <= |hist| && Dispatches(hist, from, a, due) && p.state == ANNOUNCE_1 + (|hist| - from)
    && if p.state == RUNNING then mine == []
       else ANNOUNCE_1 <= p.state < RUNNING && |mine| == 1 && SamePacket(a, mine[0])
            && mine[0].sendAt == Deadline(hist, from, |hist|, due)
  }

  predicate OnPhase(st: State, l: nat, from: nat, a: Packet, due: nat)
    requires l < |st.pcbs|
  {
    Phase(st.pcbs[l], Mine(st.tx, l), Since(st.trace, l), from, a, due)
  }

  /** The step leaves the link, its packets and its trace alone. */
  predicate Leaves(st: State, step: Step, l: nat)
    requires Sane(st) && ResponderRuns.Allowed(st, step) && l < |st.pcbs|
  {
    var r := Next(st, step);
    |r.pcbs| == |st.pcbs| && r.pcbs[l] == st.pcbs[l] && Mine(r.tx, l) == Mine(st.tx, l)
    && Since(r.trace, l) == Since(st.trace, l)
  }

  /** Nothing but the clock, the timer and the service task has to do with the link. */
  predicate Undisturbed(st: State, step: Step, l: nat)
    requires Sane(st) && ResponderRuns.Allowed(st, step) && l < |st.pcbs|
  {
    step.Tick? || step.Timer? || step.Post? || step.Take? || step.Act? || Leaves(st, step, l)
  }

  predicate QueuedOnly(tx: seq<Packet>, r: seq<Packet>) {
    |r| == |tx| && forall i :: 0 <= i < |tx| ==> r[i] == tx[i].(queued := r[i].queued)
  }

  lemma {:induction false} QueuedMine(tx: seq<Packet>, r: seq<Packet>, l: nat)
    requires QueuedOnly(tx, r)
    ensures QueuedOnly(Mine(tx, l), Mine(r, l))
  {
    if tx != [] {
      assert r[0] == tx[0].(queued := r[0].queued);
      assert QueuedOnly(tx[1..], r[1..]) by {
        forall i | 0 <= i < |tx[1..]| ensures r[1..][i] == tx[1..][i].(queued := r[1..][i].queued) {
          assert r[i + 1] == tx[i + 1].(queued := r[i + 1].queued);
        }
      }
      QueuedMine(tx[1..], r[1..], l);
      var a, b := Mine(tx[1..], l), Mine(r[1..], l);
      assert QueuedOnly([tx[0]] + a, [r[0]] + b);
    }
  }

  lemma TimerPhase(st: State, l: nat, from: nat, a: Packet, due: nat, accepts: seq<bool>)
    requires Inv(st) && l < |st.pcbs| && OnPhase(st, l, from, a, due)
    ensures |SchedulerRun(st, accepts).pcbs| == |st.pcbs| && OnPhase(SchedulerRun(st, accepts), l, from, a, due)
  {
    TimerIs(st, accepts);
    var r := Run(st.tx, st.now, accepts);
    assert Pairs(st.tx);
    forall i | 0 <= i < |st.tx| ensures r[i] == st.tx[i].(queued := r[i].queued) { RunAt(st.tx, st.now, accepts, i); }
    QueuedMine(st.tx, r, l);
    hide Inv, Run, Mine, Since, SchedulerRun, Dispatches;
  }

  /** One more dispatch of the announcement. */
  lemma DispatchedOnce(hist: seq<Event>, e: Event, from: nat, a: Packet, due: nat)
    requires from <= |hist| && Dispatches(hist, from, a, due)
    requires e.Sent? && SamePacket(a, e.packet) && e.at > Deadline(hist, from, |hist|, due)
    ensures Dispatches(hist + [e], from, a, due) && Deadline(hist + [e], from, |hist| + 1, due) == e.at + 1000
  {
    var r := hist + [e];
    forall i | from <= i < |r| ensures r[i].Sent? && SamePacket(a, r[i].packet) && r[i].at > Deadline(r, from, i, due) {
      if i < |hist| { assert r[i] == hist[i] && Deadline(r, from, i, due) == Deadline(hist, from, i, due); }
      else { assert Deadline(r, from, i, due) == Deadline(hist, from, i, due); }
    }
  }

  /** The announcement is sent, and scheduled again or not. */
  lemma SendPhase(st: State, id: nat, l: nat, from: nat, a: Packet, due: nat)
    requires Inv(st) && st.hand == Some(Send(id)) && st.tx != [] && st.tx[0].id == id && st.tx[0].link == l
    requires l < |st.pcbs| && OnPhase(st, l, from, a, due)
    ensures |ExecuteSend(st, id).pcbs| == |st.pcbs| && OnPhase(ExecuteSend(st, id), l, from, a, due)
  {
    hide Inv, Base, Mine, Since, Start, Pending, IsIn, Insert, Dispatches, Elsewhere;
    TakeHeadOk(st, id);
    DepartedOk(st, id);
    var head, s := st.tx[0], Departed(st);
    var m, e := head.(queued := false), Sent(l, st.now, head.(queued := false));
    assert Mine(st.tx, l)[0] == head && Mine(s.tx, l) == [];
    SinceMore(st.trace, e, l);
    DispatchedOnce(Since(st.trace, l), e, from, a, due);
    ScheduleOk(s, m, 1000);
  }

  lemma ActPhase(st: State, id: nat, l: nat, from: nat, a: Packet, due: nat)
    requires Inv(st) && st.hand == Some(Send(id)) && (st.tx != [] ==> st.tx[0].link < |st.pcbs|)
    requires l < |st.pcbs| && OnPhase(st, l, from, a, due)
    ensures |ExecuteSend(st, id).pcbs| == |st.pcbs| && OnPhase(ExecuteSend(st, id), l, from, a, due)
  {
    hide Inv, Phase, Mine, Since, Start;
    if st.tx != [] && st.tx[0].id == id {
      if st.tx[0].link == l { SendPhase(st, id, l, from, a, due); }
      else { SendElsewhere(st, id); }
    }
  }

  /** While nothing else has to do with the link, the announcement goes its way. */
  lemma PhaseGoesOn(st: State, step: Step, l: nat, from: nat, a: Packet, due: nat)
    requires Inv(st) && Sane(st) && ResponderRuns.Allowed(st, step) && l < |st.pcbs| && Undisturbed(st, step, l)
    requires OnPhase(st, l, from, a, due)
    ensures |Next(st, step).pcbs| == |st.pcbs| && OnPhase(Next(st, step), l, from, a, due)
  {
    hide Inv, Phase, Mine, Since, SchedulerRun, ExecuteSend;
    match step
    case Timer(accepts) => TimerPhase(st, l, from, a, due, accepts);
    case Act => if st.hand.value.Send? { HeadOnLink(st); ActPhase(st, st.hand.value.id, l, from, a, due); }
    case _ => hide Next; NextStays(st, step, l);
  }

  lemma NextStays(st: State, step: Step, l: nat)
    requires Sane(st) && ResponderRuns.Allowed(st, step) && l < |st.pcbs| && Undisturbed(st, step, l)
    requires !step.Timer? && !step.Act?
    ensures Leaves(st, step, l)
  {
  }

  /** A run whose steps are allowed, safe, and leave the link to itself. */
  predicate Quiet(st: State, steps: seq<Step>, l: nat) {
    steps == [] ||
    (var s, step := AfterRun(st, steps[..|steps| - 1]), steps[|steps| - 1];
     && Quiet(st, steps[..|steps| - 1], l) && Sane(s) && ResponderRuns.Allowed(s, step) && Safe(s, step) && l < |s.pcbs|
     && Undisturbed(s, step, l))
  }

  lemma {:induction false} QuietRun(st: State, steps: seq<Step>, l: nat, from: nat, a: Packet, due: nat)
    requires Inv(st) && l < |st.pcbs| && OnPhase(st, l, from, a, due) && Quiet(st, steps, l)
    ensures var r := AfterRun(st, steps); Inv(r) && |r.pcbs| == |st.pcbs| && OnPhase(r, l, from, a, due)
  {
    hide Inv, OnPhase, Next, ResponderRuns.Allowed, Safe, Sane, Undisturbed;
    if steps != [] {
      var before, step := steps[..|steps| - 1], steps[|steps| - 1];
      QuietRun(st, before, l, from, a, due);
      StepExact(AfterRun(st, before), step);
      PhaseGoesOn(AfterRun(st, before), step, l, from, a, due);
    }
  }

  /**
   From the last probe on, in every run that leaves the link to itself: the announcement made of the probe
   goes out more than 250 ms after it, and twice more, each more than a second after the one before; the
   link runs when, and only when, that has been done, and nothing is then left of it in the list.
   */
  lemma AnnouncedThreeTimes(st: State, id: nat, l: nat, steps: seq<Step>)
    requires Inv(st) && st.hand == Some(Send(id)) && st.tx != [] && st.tx[0].id == id && st.tx[0].queued
    requires l == st.tx[0].link && l < |st.pcbs| && st.pcbs[l].state == PROBE_3
    requires Quiet(ExecuteSend(st, id), steps, l)
    ensures var first := ExecuteSend(st, id); var r := AfterRun(first, steps); var hist := Since(r.trace, l);
            && |Mine(first.tx, l)| == 1 && |r.pcbs| == |st.pcbs| && 3 <= |hist| <= 6
            && Dispatches(hist, 3, Mine(first.tx, l)[0], st.now + 250)
            && r.pcbs[l].state == ANNOUNCE_1 + |hist| - 3 && (|hist| == 6 ==> Mine(r.tx, l) == [])
  {
    hide Inv, ExecuteSend, Mine, Since, Quiet, Dispatches;
    FirstPhase(st, id, l);
    var first := ExecuteSend(st, id);
    QuietRun(first, steps, l, 3, Mine(first.tx, l)[0], st.now + 250);
  }

  lemma FirstPhase(st: State, id: nat, l: nat)
    requires Inv(st) && st.hand == Some(Send(id)) && st.tx != [] && st.tx[0].id == id && st.tx[0].queued
    requires l == st.tx[0].link && l < |st.pcbs| && st.pcbs[l].state == PROBE_3
    ensures var first := ExecuteSend(st, id);
            && Inv(first) && |first.pcbs| == |st.pcbs| && |Mine(first.tx, l)| == 1
            && OnPhase(first, l, 3, Mine(first.tx, l)[0], st.now + 250)
  {
    LastProbe(st, id, l);
    ExecuteSendOk(st, id);
    SendElsewhere(st, id);
    hide Inv, ExecuteSend, Mine, Since, Start, Announced, Spaced, Covers, Phase;
    var first := ExecuteSend(st, id);
    PhaseStarts(first.pcbs[l], Mine(first.tx, l), Since(first.trace, l), st.now + 250);
  }

  lemma PhaseStarts(p: Pcb, mine: seq<Packet>, hist: seq<Event>, due: nat)
    requires p.state == ANNOUNCE_1 && |mine| == 1 && |hist| == 3 && mine[0].sendAt == due
    ensures Phase(p, mine, hist, 3, mine[0], due)
  {
  }
}
