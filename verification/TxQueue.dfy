/**
 The queue of packets waiting to be sent: a linked list that stays sorted by due time. Packets due
 at the same time leave in the order they came.
 */
module TxQueue {
  import opened Bytes
  import opened Lists
  import opened Txt
  import opened Answers

  /** What a question asks for; the first three borrow their names from a service or a host. */
  datatype Subject = OfService(id: nat) | OwnName | OfHost(owner: Option<nat>)
                   | Echoed(qtype: nat, service: Option<text>, proto: Option<text>)

  datatype OutQuestion = OutQuestion(subject: Subject, unicast: bool)

  /** `mdns_tx_packet_t`; `link` numbers the pair of interface and IP protocol, `id` is the object itself. */
  datatype Packet = Packet(id: nat, link: nat, sendAt: nat, queued: bool, response: bool, distributed: bool,
                           questions: seq<OutQuestion>, answers: seq<Answer>, additional: seq<Answer>,
                           servers: seq<Answer>)

  // ---------------------------------------------------------------- the list as a value

  predicate Sorted(tx: seq<Packet>) {
    forall i, j :: 0 <= i < j < |tx| ==> tx[i].sendAt <= tx[j].sendAt
  }

  /** Where a packet due at `t` goes: before the first packet that is due later. */
  function Position(tx: seq<Packet>, t: nat): (k: nat)
    ensures k <= |tx|
    ensures forall i :: 0 <= i < k ==> tx[i].sendAt <= t
    ensures k < |tx| ==> tx[k].sendAt > t
  {
    if tx == [] || tx[0].sendAt > t then 0 else Position(tx[1..], t) + 1
  }

  lemma PositionIs(tx: seq<Packet>, t: nat, k: nat)
    requires k <= |tx| && (forall i :: 0 <= i < k ==> tx[i].sendAt <= t) && (k < |tx| ==> tx[k].sendAt > t)
    ensures Position(tx, t) == k
  {
  }

  function Insert(tx: seq<Packet>, p: Packet): seq<Packet> {
    var k := Position(tx, p.sendAt);
    tx[..k] + [p] + tx[k..]
  }

  /** Nothing is left in the packet to be sent. */
  predicate Blank(m: Packet) {
    m.questions == [] && m.answers == [] && m.additional == [] && m.servers == []
  }

  datatype Filter = OffLink(link: nat) | OnLink(link: nat) | Filled | Both(f: Filter, g: Filter)

  predicate Passes(p: Packet, f: Filter) {
    match f
    case OffLink(link) => p.link != link
    case OnLink(link) => p.link == link
    case Filled => !Blank(p)
    case Both(f, g) => Passes(p, f) && Passes(p, g)
  }

  function Keep(tx: seq<Packet>, f: Filter): (r: seq<Packet>)
    ensures |r| <= |tx|
  {
    if tx == [] then [] else (if Passes(tx[0], f) then [tx[0]] else []) + Keep(tx[1..], f)
  }

  /** `_mdns_clear_pcb_tx_queue_head` */
  function WithoutLink(tx: seq<Packet>, link: nat): seq<Packet> {
    Keep(tx, OffLink(link))
  }

  lemma KeepFirst(tx: seq<Packet>, f: Filter)
    requires tx != []
    ensures Keep(tx, f) == if Passes(tx[0], f) then [tx[0]] + Keep(tx[1..], f) else Keep(tx[1..], f)
  {
  }

  lemma {:induction false} KeepConcat(s: seq<Packet>, t: seq<Packet>, f: Filter)
    ensures Keep(s + t, f) == Keep(s, f) + Keep(t, f)
  {
    hide Passes;
    if s == [] {
      AndNothing(t);
      AndNothing(Keep(t, f));
    } else {
      ConsJoined(s, t);
      KeepConcat(s[1..], t, f);
      KeepFirst(s, f);
      KeepFirst(s + t, f);
      hide Keep;
      Assoc([s[0]], Keep(s[1..], f), Keep(t, f));
    }
  }

  lemma {:induction false} KeepAll(s: seq<Packet>, f: Filter)
    requires forall i :: 0 <= i < |s| ==> Passes(s[i], f)
    ensures Keep(s, f) == s
  {
    if s != [] { KeepAll(s[1..], f); }
  }

  lemma {:induction false} KeepNone(s: seq<Packet>, f: Filter)
    requires forall i :: 0 <= i < |s| ==> !Passes(s[i], f)
    ensures Keep(s, f) == []
  {
    if s != [] { KeepNone(s[1..], f); }
  }

  /** Where the packets of a filtered list come from. */
  lemma {:induction false} KeepFrom(s: seq<Packet>, f: Filter, i: nat) returns (j: nat)
    requires i < |Keep(s, f)|
    ensures i <= j < |s| && s[j] == Keep(s, f)[i] && Passes(s[j], f)
  {
    if Passes(s[0], f) {
      if i == 0 { j := 0; } else { j := KeepFrom(s[1..], f, i - 1); j := j + 1; }
    } else {
      j := KeepFrom(s[1..], f, i); j := j + 1;
    }
  }

  lemma {:induction false} KeepHas(s: seq<Packet>, f: Filter, j: nat) returns (i: nat)
    requires j < |s| && Passes(s[j], f)
    ensures i < |Keep(s, f)| && Keep(s, f)[i] == s[j]
  {
    if j == 0 { i := 0; }
    else {
      i := KeepHas(s[1..], f, j - 1);
      if Passes(s[0], f) { i := i + 1; }
    }
  }

  lemma {:induction false} KeepSorted(s: seq<Packet>, f: Filter)
    requires Sorted(s)
    ensures Sorted(Keep(s, f))
  {
    if s != [] {
      KeepSorted(s[1..], f);
      KeepFirst(s, f);
      var r := Keep(s[1..], f);
      hide Keep, Passes;
      forall i | 0 <= i < |r| ensures s[0].sendAt <= r[i].sendAt {
        var j := KeepFrom(s[1..], f, i);
      }
    }
  }

  lemma InsertSorted(tx: seq<Packet>, p: Packet)
    requires Sorted(tx)
    ensures Sorted(Insert(tx, p))
  {
  }

  lemma KeepMiddle(a: seq<Packet>, m: seq<Packet>, b: seq<Packet>, f: Filter)
    ensures Keep(a + m + b, f) == Keep(a, f) + Keep(m, f) + Keep(b, f)
  {
    hide Keep;
    KeepConcat(a + m, b, f);
    KeepConcat(a, m, f);
  }

  lemma KeepDropped(s: seq<Packet>, i: nat, f: Filter)
    requires i < |s| && !Passes(s[i], f)
    ensures Keep(s[..i] + s[i + 1..], f) == Keep(s, f)
  {
    KeepNone([s[i]], f);
    hide Keep;
    var a, b := s[..i], s[i + 1..];
    assert s == a + [s[i]] + b;
    KeepMiddle(a, [s[i]], b, f);
    KeepConcat(a, b, f);
  }

  lemma InsertKeeps(tx: seq<Packet>, p: Packet, f: Filter)
    ensures Keep(Insert(tx, p), f) ==
            Keep(tx[..Position(tx, p.sendAt)], f) + Keep([p], f) + Keep(tx[Position(tx, p.sendAt)..], f)
  {
    hide Keep;
    var k := Position(tx, p.sendAt);
    KeepMiddle(tx[..k], [p], tx[k..], f);
  }

  lemma InsertDropped(tx: seq<Packet>, p: Packet, f: Filter)
    requires !Passes(p, f)
    ensures Keep(Insert(tx, p), f) == Keep(tx, f)
  {
    hide Keep, Passes, Position;
    var k := Position(tx, p.sendAt);
    var one: seq<Packet> := [p];
    KeepNone(one, f);
    InsertKeeps(tx, p, f);
    var a, b := tx[..k], tx[k..];
    KeepConcat(a, b, f);
    assert tx == a + b;
  }

  lemma InsertHolds(tx: seq<Packet>, p: Packet, k: nat)
    requires k <= |tx|
    ensures var r := tx[..k] + [p] + tx[k..];
            r[k] == p && (forall i :: 0 <= i < |tx| ==> r[if i < k then i else i + 1] == tx[i])
            && multiset(r) == multiset(tx) + multiset{p}
  {
    assert tx == tx[..k] + tx[k..];
  }

  lemma SortedSplit(tx: seq<Packet>, t: nat, i: nat)
    requires Sorted(tx) && i < |tx|
    ensures tx[i].sendAt <= t <==> i < Position(tx, t)
  {
    var k := Position(tx, t);
    if i > k { assert tx[k].sendAt <= tx[i].sendAt; }
  }

  /**
   * In a sorted list the new packet stands behind every packet due no later and before every packet
   * due later; it is the only one added and the others keep their order.
   */
  lemma InsertIsStable(tx: seq<Packet>, p: Packet)
    requires Sorted(tx)
    ensures var r := Insert(tx, p); var k := Position(tx, p.sendAt);
            && multiset(r) == multiset(tx) + multiset{p} && r[k] == p
            && (forall i :: 0 <= i < |tx| ==>
                  (tx[i].sendAt <= p.sendAt <==> i < k) && r[if i < k then i else i + 1] == tx[i])
    ensures Sorted(Insert(tx, p))
  {
    InsertSorted(tx, p);
    var k := Position(tx, p.sendAt);
    InsertHolds(tx, p, k);
    forall i | 0 <= i < |tx| ensures tx[i].sendAt <= p.sendAt <==> i < k { SortedSplit(tx, p.sendAt, i); }
    hide Sorted, Position;
  }

  /** Clearing a link drops exactly its packets and keeps the others sorted, in their order. */
  lemma ClearIsFilter(tx: seq<Packet>, link: nat, other: nat)
    requires Sorted(tx)
    ensures var r := WithoutLink(tx, link);
            && Sorted(r) && Keep(r, OnLink(link)) == []
            && (other != link ==> Keep(r, OnLink(other)) == Keep(tx, OnLink(other)))
  {
    KeepSorted(tx, OffLink(link));
    KeepTwice(tx, OffLink(link), OnLink(link));
    KeepTwice(tx, OffLink(link), OnLink(other));
    KeepNone(tx, Both(OffLink(link), OnLink(link)));
    if other != link { KeepSame(tx, Both(OffLink(link), OnLink(other)), OnLink(other)); }
  }

  lemma {:induction false} KeepTwice(s: seq<Packet>, f: Filter, g: Filter)
    ensures Keep(Keep(s, f), g) == Keep(s, Both(f, g))
  {
    if s != [] {
      KeepTwice(s[1..], f, g);
      KeepConcat(if Passes(s[0], f) then [s[0]] else [], Keep(s[1..], f), g);
    }
  }

  lemma {:induction false} KeepSame(s: seq<Packet>, f: Filter, g: Filter)
    requires forall i :: 0 <= i < |s| ==> Passes(s[i], f) == Passes(s[i], g)
    ensures Keep(s, f) == Keep(s, g)
  {
    if s != [] { KeepSame(s[1..], f, g); }
  }

  // ---------------------------------------------------------------- the list as linked nodes

  class Node {
    var packet: Packet
    var next: Node?

    constructor (p: Packet)
      ensures packet == p && next == null
    {
      packet, next := p, null;
    }
  }

  ghost function NodeAt(nodes: seq<Node>, i: nat): Node? {
    if i < |nodes| then nodes[i] else null
  }

  ghost predicate NoRepeat(nodes: seq<Node>) {
    forall i, j :: 0 <= i < j < |nodes| ==> nodes[i] != nodes[j]
  }

  ghost predicate Linked(nodes: seq<Node>)
    reads nodes
  {
    forall i :: 0 <= i < |nodes| ==> nodes[i].next == NodeAt(nodes, i + 1)
  }

  ghost function Packets(nodes: seq<Node>): (r: seq<Packet>)
    reads nodes
    ensures |r| == |nodes| && forall i :: 0 <= i < |nodes| ==> r[i] == nodes[i].packet
  {
    if nodes == [] then [] else [nodes[0].packet] + Packets(nodes[1..])
  }

  lemma DistinctAt(nodes: seq<Node>, k: nat)
    requires NoRepeat(nodes) && k < |nodes|
    ensures forall i :: 0 <= i < |nodes| && i != k ==> nodes[i] != nodes[k]
  {
  }

  lemma DistinctDrop(nodes: seq<Node>, k: nat)
    requires NoRepeat(nodes) && k < |nodes|
    ensures NoRepeat(nodes[..k] + nodes[k + 1..])
  {
  }

  function With<T>(s: seq<T>, k: nat, x: T): (r: seq<T>)
    requires k <= |s|
    ensures |r| == |s| + 1 && r[k] == x
    ensures forall i :: 0 <= i < k ==> r[i] == s[i]
    ensures forall i :: k < i < |r| ==> r[i] == s[i - 1]
  {
    s[..k] + [x] + s[k..]
  }

  lemma DistinctInsert(nodes: seq<Node>, k: nat, p: Node)
    requires NoRepeat(nodes) && k <= |nodes| && forall i :: 0 <= i < |nodes| ==> nodes[i] != p
    ensures NoRepeat(With(nodes, k, p))
  {
  }

  lemma PacketsAre(nodes: seq<Node>, tx: seq<Packet>)
    requires |tx| == |nodes| && forall i :: 0 <= i < |nodes| ==> nodes[i].packet == tx[i]
    ensures Packets(nodes) == tx
  {
  }

  ghost predicate Clean(nodes: seq<Node>, link: nat)
    reads nodes
  {
    forall i :: 0 <= i < |nodes| ==> nodes[i].packet.link != link
  }

  lemma CleanKept(nodes: seq<Node>, link: nat)
    requires Clean(nodes, link)
    ensures Keep(Packets(nodes), OffLink(link)) == Packets(nodes)
  {
    KeepAll(Packets(nodes), OffLink(link));
  }

  lemma LinkedInsert(was: seq<Node>, k: nat, p: Node)
    requires k < |was| && was[k].next == p && p.next == NodeAt(was, k + 1)
    requires forall i :: 0 <= i < |was| && i != k ==> was[i].next == NodeAt(was, i + 1)
    ensures Linked(With(was, k + 1, p))
  {
    var nodes := With(was, k + 1, p);
    forall i | 0 <= i < |nodes| ensures nodes[i].next == NodeAt(nodes, i + 1) {
      if i <= k { assert nodes[i] == was[i]; }
      else if i > k + 1 { assert nodes[i] == was[i - 1]; }
    }
  }

  lemma PacketsWith(nodes: seq<Node>, k: nat, p: Node)
    requires k <= |nodes|
    ensures Packets(With(nodes, k, p)) == With(Packets(nodes), k, p.packet)
  {
    var r, tx := With(nodes, k, p), With(Packets(nodes), k, p.packet);
    hide With;
    forall i | 0 <= i < |r| ensures r[i].packet == tx[i] {
      if i < k { assert r[i] == nodes[i]; } else if i > k { assert r[i] == nodes[i - 1]; }
    }
    PacketsAre(r, tx);
  }

  lemma LinkedNext(nodes: seq<Node>)
    requires Linked(nodes)
    ensures forall i :: 0 <= i < |nodes| ==> nodes[i].next == NodeAt(nodes, i + 1)
  {
  }

  lemma PacketsOf(nodes: seq<Node>)
    ensures |Packets(nodes)| == |nodes| && forall i :: 0 <= i < |nodes| ==> nodes[i].packet == Packets(nodes)[i]
  {
  }

  lemma LinkedDrop(was: seq<Node>, k: nat)
    requires 0 < k < |was| && was[k - 1].next == was[k].next
    requires forall i :: 0 <= i < |was| && i != k - 1 ==> was[i].next == NodeAt(was, i + 1)
    ensures Linked(was[..k] + was[k + 1..])
  {
    var nodes := was[..k] + was[k + 1..];
    forall i | 0 <= i < |nodes| ensures nodes[i].next == NodeAt(nodes, i + 1) {
      if i < k { assert nodes[i] == was[i]; } else { assert nodes[i] == was[i + 1]; }
    }
  }

  lemma PacketsJoin(a: seq<Node>, b: seq<Node>)
    ensures Packets(a + b) == Packets(a) + Packets(b)
  {
    var r, tx := a + b, Packets(a) + Packets(b);
    hide Packets;
    forall i | 0 <= i < |r| ensures r[i].packet == tx[i] {}
    PacketsAre(r, tx);
  }

  lemma PacketsDrop(nodes: seq<Node>, k: nat)
    requires k < |nodes|
    ensures Packets(nodes[..k] + nodes[k + 1..]) == Packets(nodes)[..k] + Packets(nodes)[k + 1..]
  {
    hide Packets;
    var tx, a, b := Packets(nodes), nodes[..k], nodes[k + 1..];
    PacketsAre(a, tx[..k]);
    PacketsAre(b, tx[k + 1..]);
    PacketsJoin(a, b);
  }

  lemma InsertIsWith(tx: seq<Packet>, p: Packet)
    ensures Insert(tx, p) == With(tx, Position(tx, p.sendAt), p)
    ensures Position(tx, p.sendAt) == 0 ==> Insert(tx, p) == [p] + tx
  {
  }

  ghost predicate Within(nodes: seq<Node>, was: seq<Node>) {
    forall i :: 0 <= i < |nodes| ==> nodes[i] in was
  }

  class Queue {
    var head: Node?
    ghost var nodes: seq<Node>

    ghost predicate Valid()
      reads this, nodes
    {
      head == NodeAt(nodes, 0) && Linked(nodes) && NoRepeat(nodes)
    }

    ghost function Contents(): seq<Packet>
      reads this, nodes
    {
      Packets(nodes)
    }

    constructor ()
      ensures Valid() && Contents() == []
    {
      head, nodes := null, [];
    }

    /** A node goes in at the head. */
    method LinkFirst(p: Node)
      requires Valid() && forall i :: 0 <= i < |nodes| ==> nodes[i] != p
      modifies this, p`next
      ensures Valid() && nodes == [p] + old(nodes)
      ensures Contents() == [p.packet] + old(Contents())
    {
      hide NoRepeat, Packets;
      DistinctInsert(nodes, 0, p);
      assert With(nodes, 0, p) == [p] + nodes;
      ghost var tx := Contents();
      p.next := head;
      head := p;
      nodes := [p] + nodes;
      PacketsAre(nodes, [p.packet] + tx);
    }

    /** A node goes in behind `q`. */
    method LinkAfter(p: Node, q: Node, ghost k: nat)
      requires Valid() && k < |nodes| && q == nodes[k] && forall i :: 0 <= i < |nodes| ==> nodes[i] != p
      modifies this`nodes, p`next, q`next
      ensures Valid() && nodes == With(old(nodes), k + 1, p)
      ensures Contents() == With(old(Contents()), k + 1, p.packet)
    {
      hide NoRepeat, Packets, With;
      DistinctInsert(nodes, k + 1, p);
      DistinctAt(nodes, k);
      NextIs(k);
      ghost var tx, was := Contents(), nodes;
      p.next := q.next;
      q.next := p;
      LinkedInsert(was, k, p);
      nodes := With(was, k + 1, p);
      PacketsWith(was, k + 1, p);
      PacketsAre(was, tx);
    }

    /** The last node that is due no later than `t`, which the head is. */
    method LastDue(t: nat) returns (q: Node, ghost i: nat)
      requires Valid() && head != null && head.packet.sendAt <= t
      ensures i < |nodes| && q == nodes[i] && Position(Contents(), t) == i + 1
    {
      hide NoRepeat, Position, Packets, Linked;
      q := head;
      i := 0;
      NextIs(0);
      while q.next != null && q.next.packet.sendAt <= t
        invariant i < |nodes| == |Contents()| && q == nodes[i] && Valid()
        invariant forall j :: 0 <= j <= i ==> Contents()[j].sendAt <= t
        decreases |nodes| - i
      {
        NextIs(i);
        assert i + 1 < |nodes|;
        NextIs(i + 1);
        q := q.next;
        i := i + 1;
      }
      NextIs(i);
      if i + 1 < |nodes| { NextIs(i + 1); }
      PositionIs(Contents(), t, i + 1);
    }

    /** `_mdns_schedule_tx_packet` */
    method Schedule(p: Node, now: nat, after: nat)
      requires Valid() && forall i :: 0 <= i < |nodes| ==> nodes[i] != p
      modifies this, p, nodes`next
      ensures Valid()
      ensures p.packet == old(p.packet).(sendAt := now + after)
      ensures Contents() == Insert(old(Contents()), p.packet)
    {
      hide NoRepeat, Packets, Linked, Insert;
      Restamp(p, now + after);
      if head == null || head.packet.sendAt > p.packet.sendAt { ScheduleFirst(p); } else { ScheduleBehind(p); }
    }

    /** A packet due before the head becomes the head. */
    method ScheduleFirst(p: Node)
      requires Valid() && forall i :: 0 <= i < |nodes| ==> nodes[i] != p
      requires head == null || head.packet.sendAt > p.packet.sendAt
      modifies this, p`next
      ensures Valid() && p.packet == old(p.packet) && Contents() == Insert(old(Contents()), p.packet)
    {
      hide NoRepeat, Position, Packets, Linked, With, Insert;
      if head != null { NextIs(0); }
      PositionIs(Contents(), p.packet.sendAt, 0);
      InsertIsWith(Contents(), p.packet);
      LinkFirst(p);
    }

    /** Any other packet goes in behind the last one due no later. */
    method ScheduleBehind(p: Node)
      requires Valid() && forall i :: 0 <= i < |nodes| ==> nodes[i] != p
      requires head != null && head.packet.sendAt <= p.packet.sendAt
      modifies this, p`next, nodes`next
      ensures Valid() && p.packet == old(p.packet) && Contents() == Insert(old(Contents()), p.packet)
    {
      hide NoRepeat, Position, Packets, Linked, With, Insert;
      InsertIsWith(Contents(), p.packet);
      var q, i := LastDue(p.packet.sendAt);
      LinkAfter(p, q, i);
    }

    method Restamp(p: Node, at: nat)
      requires Valid() && forall i :: 0 <= i < |nodes| ==> nodes[i] != p
      modifies p`packet
      ensures Valid() && Contents() == old(Contents()) && p.packet == old(p.packet).(sendAt := at)
    {
      PacketsOf(nodes);
      hide Packets, NoRepeat;
      ghost var tx := Contents();
      p.packet := p.packet.(sendAt := at);
      PacketsAre(nodes, tx);
    }

    lemma NextIs(i: nat)
      requires Valid() && i < |nodes|
      ensures i + 1 < |nodes| ==> nodes[i].next == nodes[i + 1]
      ensures i + 1 >= |nodes| ==> nodes[i].next == null
      ensures |Contents()| == |nodes| && Contents()[i] == nodes[i].packet
    {
    }

    /** `_mdns_clear_tx_queue_head` */
    method Clear()
      requires Valid()
      modifies this
      ensures Valid() && Contents() == []
    {
      while head != null
        invariant Valid()
        decreases |nodes|
      {
        Pop();
      }
    }

    /** The head node is taken off. */
    method Pop()
      requires Valid() && head != null
      modifies this
      ensures Valid() && nodes == old(nodes)[1..] && Contents() == old(Contents())[1..]
    {
      hide NoRepeat, Packets;
      DistinctDrop(nodes, 0);
      assert nodes[..0] + nodes[1..] == nodes[1..];
      ghost var tx := Contents();
      head := head.next;
      nodes := nodes[1..];
      PacketsAre(nodes, tx[1..]);
    }

    /** The node behind `q` is taken out. */
    method Unlink(q: Node, ghost k: nat)
      requires Valid() && k + 1 < |nodes| && q == nodes[k]
      modifies this`nodes, q`next
      ensures Valid() && nodes == old(nodes[..k + 1] + nodes[k + 2..])
      ensures Contents() == old(Contents()[..k + 1] + Contents()[k + 2..])
    {
      hide NoRepeat, Packets, Linked;
      DistinctDrop(nodes, k + 1);
      DistinctAt(nodes, k);
      NextIs(k);
      ghost var was, tx := nodes, Contents();
      LinkedNext(was);
      PacketsOf(was);
      var p := q.next;
      q.next := p.next;
      LinkedDrop(was, k + 1);
      PacketsAre(was, tx);
      PacketsDrop(was, k + 1);
      nodes := was[..k + 1] + was[k + 2..];
    }

    /** One turn of the walk that clears a link: the next node is taken out, or stepped on. */
    method ClearNext(q: Node, ghost i: nat, link: nat, ghost was: seq<Node>) returns (r: Node, ghost j: nat)
      requires Valid() && i + 1 < |nodes| && q == nodes[i] && Within(nodes, was) && Clean(nodes[..i + 1], link)
      modifies this`nodes, q`next
      ensures Valid() && Within(nodes, was) && j < |nodes| && r == nodes[j] && Clean(nodes[..j + 1], link)
      ensures |nodes| - j < |old(nodes)| - i
      ensures Keep(Contents(), OffLink(link)) == Keep(old(Contents()), OffLink(link))
    {
      hide Keep, NoRepeat, Packets, Linked;
      NextIs(i);
      if q.next.packet.link == link {
        KeepDropped(Contents(), i + 1, OffLink(link));
        Unlink(q, i);
        return q, i;
      }
      return q.next, i + 1;
    }

    /** The nodes at the head are taken off as long as they are of the link. */
    method ClearFront(link: nat)
      requires Valid()
      modifies this
      ensures Valid() && Within(nodes, old(nodes))
      ensures nodes == [] || nodes[0].packet.link != link
      ensures Keep(Contents(), OffLink(link)) == Keep(old(Contents()), OffLink(link))
    {
      hide Keep, NoRepeat, Packets, Linked;
      ghost var was := nodes;
      while head != null && head.packet.link == link
        invariant Valid() && Within(nodes, was)
        invariant Keep(Contents(), OffLink(link)) == Keep(old(Contents()), OffLink(link))
        decreases |nodes|
      {
        PopOf(link);
      }
    }

    method PopOf(link: nat)
      requires Valid() && head != null && head.packet.link == link
      modifies this
      ensures Valid() && nodes == old(nodes)[1..]
      ensures Keep(Contents(), OffLink(link)) == Keep(old(Contents()), OffLink(link))
    {
      hide Keep, NoRepeat, Packets, Linked;
      NextIs(0);
      KeepFirst(Contents(), OffLink(link));
      Pop();
    }

    /** Behind a head that stays, the nodes of the link are taken out. */
    method ClearBehind(link: nat)
      requires Valid() && nodes != [] && nodes[0].packet.link != link
      modifies this, nodes`next
      ensures Valid() && Contents() == WithoutLink(old(Contents()), link)
    {
      hide Keep, NoRepeat, Packets, Linked;
      ghost var was := nodes;
      var q: Node := head;
      ghost var i: nat := 0;
      while q.next != null
        invariant 0 <= i < |nodes| && q == nodes[i] && Valid() && Within(nodes, was)
        invariant Clean(nodes[..i + 1], link)
        invariant Keep(Contents(), OffLink(link)) == Keep(old(Contents()), OffLink(link))
        decreases |nodes| - i
      {
        NextIs(i);
        q, i := ClearNext(q, i, link, was);
      }
      NextIs(i);
      assert nodes[..i + 1] == nodes;
      CleanKept(nodes, link);
    }

    /** `_mdns_clear_pcb_tx_queue_head` */
    method ClearLink(link: nat)
      requires Valid()
      modifies this, nodes`next
      ensures Valid() && Contents() == WithoutLink(old(Contents()), link)
    {
      hide Keep, NoRepeat, Packets, Linked;
      KeepAll([], OffLink(link));
      ClearFront(link);
      if head != null { ClearBehind(link); }
    }

    /** `_mdns_get_next_pcb_packet` */
    method Next(link: nat) returns (q: Node?)
      requires Valid()
      ensures q == null <==> forall i :: 0 <= i < |nodes| ==> nodes[i].packet.link != link
      ensures q != null ==> exists k :: 0 <= k < |nodes| && q == nodes[k] && q.packet.link == link
                                        && forall i :: 0 <= i < k ==> nodes[i].packet.link != link
    {
      q := head;
      ghost var k := 0;
      while q != null
        invariant k <= |nodes| && (if k == |nodes| then q == null else q == nodes[k])
        invariant forall i :: 0 <= i < k ==> nodes[i].packet.link != link
        decreases |nodes| - k
      {
        if q.packet.link == link { return q; }
        q := q.next;
        k := k + 1;
      }
    }

    /** A node that is out of the list forgets it. */
    method Release(p: Node)
      requires Valid() && forall i :: 0 <= i < |nodes| ==> nodes[i] != p
      modifies p`next
      ensures Valid() && Contents() == old(Contents())
    {
      ghost var tx := Contents();
      p.next := null;
      PacketsAre(nodes, tx);
    }

    /** The node before `p`, or the last one when `p` is not in the list. */
    method Before(p: Node, ghost at: nat) returns (q: Node, ghost k: nat)
      requires Valid() && head != null && 0 < at <= |nodes| && (at < |nodes| ==> nodes[at] == p)
      requires forall i :: 0 <= i < at ==> nodes[i] != p
      ensures k == at - 1 && q == nodes[k]
    {
      hide NoRepeat, Packets, Linked;
      q := head;
      k := 0;
      while q.next != null && q.next != p
        invariant k < |nodes| && q == nodes[k] && k < at && Valid()
        decreases |nodes| - k
      {
        NextIs(k);
        assert k + 1 < |nodes|;
        q := q.next;
        k := k + 1;
      }
      NextIs(k);
    }

    /** `queueDetach`: the node at `at` goes, and nothing happens to a list the node is not in. */
    method Detach(p: Node, ghost at: nat)
      requires Valid() && at <= |nodes| && (at < |nodes| ==> nodes[at] == p)
      requires forall i :: 0 <= i < at ==> nodes[i] != p
      modifies this, nodes`next, p`next
      ensures Valid()
      ensures nodes == if at < |old(nodes)| then old(nodes[..at] + nodes[at + 1..]) else old(nodes)
      ensures Contents() == if at < |old(nodes)| then old(Contents()[..at] + Contents()[at + 1..]) else old(Contents())
    {
      hide NoRepeat, Packets, Linked;
      if head == null { return; }
      if head == p { Pop(); return; }
      var q, k := Before(p, at);
      NextIs(k);
      if q.next == p {
        DistinctAt(nodes, at);
        Unlink(q, k);
        Release(p);
      }
    }

    /** The list side of `ACTION_TX_HANDLE`: the packet leaves only from the head, and only if flagged. */
    method TakeHead(p: Node) returns (taken: bool)
      requires Valid()
      modifies this, p
      ensures Valid()
      ensures taken == (|old(nodes)| > 0 && old(nodes)[0] == p && old(p.packet.queued))
      ensures nodes == if taken then old(nodes)[1..] else old(nodes)
      ensures p.packet == if taken then old(p.packet).(queued := false) else old(p.packet)
    {
      taken := head != null && head == p && head.packet.queued;
      if taken {
        p.packet := p.packet.(queued := false);
        head := p.next;
        nodes := nodes[1..];
      }
    }
  }

}
