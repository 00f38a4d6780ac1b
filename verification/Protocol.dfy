/**
 Between the timer and the service task: the packets flagged in the list and the send actions on
 their way, in every interleaving with calls that add or clear packets.
 */
module Protocol {
  import opened Lists
  import opened Txt
  import opened TxQueue
  import opened Responder

  // ---------------------------------------------------------------- what holds between any two steps

  /** Two packets, in the order of the list: by due time, distinct, the flagged ones first. */
  predicate Pair(a: Packet, b: Packet) {
    a.sendAt <= b.sendAt && a.id != b.id && (b.queued ==> a.queued)
  }

  predicate Pairs(tx: seq<Packet>) {
    forall i, j :: 0 <= i < j < |tx| ==> Pair(tx[i], tx[j])
  }

  predicate Each(tx: seq<Packet>, now: nat, nextId: nat, links: nat) {
    forall i :: 0 <= i < |tx| ==> tx[i].id < nextId && tx[i].link < links && (tx[i].queued ==> tx[i].sendAt < now)
  }

  predicate IsIn(tx: seq<Packet>, id: nat) {
    exists i :: 0 <= i < |tx| && tx[i].id == id
  }

  /** The identities that belong to listed packets. */
  function Listed(ids: seq<nat>, tx: seq<Packet>): seq<nat> {
    if ids == [] then [] else (if IsIn(tx, ids[0]) then [ids[0]] else []) + Listed(ids[1..], tx)
  }

  function QueuedIds(tx: seq<Packet>): seq<nat> {
    if tx == [] then [] else (if tx[0].queued then [tx[0].id] else []) + QueuedIds(tx[1..])
  }

  function SendIds(actions: seq<Action>): seq<nat> {
    if actions == [] then []
    else (if actions[0].Send? then [actions[0].id] else []) + SendIds(actions[1..])
  }

  /** The send actions on their way, the one in hand first. */
  function Pending(hand: Option<Action>, actions: seq<Action>): seq<nat> {
    SendIds((if hand.Some? then [hand.value] else []) + actions)
  }

  predicate Below(ids: seq<nat>, n: nat) {
    forall i :: 0 <= i < |ids| ==> ids[i] < n
  }

  /**
   * The list is ordered, flagged packets are due, and the send actions of listed packets are exactly
   * the flagged packets, in their order.
   */
  predicate TxOk(tx: seq<Packet>, pending: seq<nat>, now: nat, nextId: nat, links: nat) {
    Pairs(tx) && Each(tx, now, nextId, links) && Below(pending, nextId) && Listed(pending, tx) == QueuedIds(tx)
  }

  // ---------------------------------------------------------------- filters

  lemma {:induction false} ListedConcat(a: seq<nat>, b: seq<nat>, tx: seq<Packet>)
    ensures Listed(a + b, tx) == Listed(a, tx) + Listed(b, tx)
  {
    hide IsIn;
    if a == [] {
      AndNothing(b);
      AndNothing(Listed(b, tx));
    } else {
      ConsJoined(a, b);
      ListedConcat(a[1..], b, tx);
      ListedStep(a, tx);
      ListedStep(a + b, tx);
      hide Listed;
      Assoc([a[0]], Listed(a[1..], tx), Listed(b, tx));
    }
  }

  lemma ListedStep(ids: seq<nat>, tx: seq<Packet>)
    requires ids != []
    ensures Listed(ids, tx) == if IsIn(tx, ids[0]) then [ids[0]] + Listed(ids[1..], tx) else Listed(ids[1..], tx)
  {
  }

  lemma {:induction false} ListedTwice(ids: seq<nat>, tx: seq<Packet>, less: seq<Packet>)
    requires forall i :: 0 <= i < |less| ==> IsIn(tx, less[i].id)
    ensures Listed(Listed(ids, tx), less) == Listed(ids, less)
  {
    if ids != [] {
      ListedTwice(ids[1..], tx, less);
      ListedConcat(if IsIn(tx, ids[0]) then [ids[0]] else [], Listed(ids[1..], tx), less);
    }
  }

  /** Only the identities of the two lists matter. */
  lemma {:induction false} ListedSame(ids: seq<nat>, tx: seq<Packet>, other: seq<Packet>)
    requires forall i :: 0 <= i < |ids| ==> IsIn(tx, ids[i]) == IsIn(other, ids[i])
    ensures Listed(ids, tx) == Listed(ids, other)
  {
    if ids != [] { ListedSame(ids[1..], tx, other); }
  }

  lemma {:induction false} ListedAll(ids: seq<nat>, tx: seq<Packet>)
    requires forall i :: 0 <= i < |ids| ==> IsIn(tx, ids[i])
    ensures Listed(ids, tx) == ids
  {
    if ids != [] { ListedAll(ids[1..], tx); }
  }

  lemma {:induction false} ListedNone(ids: seq<nat>, tx: seq<Packet>)
    requires forall i :: 0 <= i < |ids| ==> !IsIn(tx, ids[i])
    ensures Listed(ids, tx) == []
  {
    if ids != [] { ListedNone(ids[1..], tx); }
  }

  lemma {:induction false} KeepPairs(tx: seq<Packet>, f: Filter)
    requires Pairs(tx)
    ensures Pairs(Keep(tx, f))
  {
    if tx != [] {
      KeepPairs(tx[1..], f);
      var r := Keep(tx[1..], f);
      forall i | 0 <= i < |r| ensures Pair(tx[0], r[i]) {
        var j := KeepFrom(tx[1..], f, i);
        assert tx[1..][j] == tx[j + 1];
      }
    }
  }

  lemma KeepEach(tx: seq<Packet>, f: Filter, now: nat, nextId: nat, links: nat)
    requires Each(tx, now, nextId, links)
    ensures Each(Keep(tx, f), now, nextId, links)
  {
    var r := Keep(tx, f);
    forall i | 0 <= i < |r| ensures r[i].id < nextId && r[i].link < links && (r[i].queued ==> r[i].sendAt < now) {
      var j := KeepFrom(tx, f, i);
    }
  }

  lemma KeepIn(tx: seq<Packet>, f: Filter)
    ensures forall i :: 0 <= i < |Keep(tx, f)| ==> IsIn(tx, Keep(tx, f)[i].id)
  {
    forall i | 0 <= i < |Keep(tx, f)| ensures IsIn(tx, Keep(tx, f)[i].id) {
      var j := KeepFrom(tx, f, i);
    }
  }

  lemma NotQueuedIn(tx: seq<Packet>, id: nat)
    requires !IsIn(tx, id)
    ensures forall i :: 0 <= i < |QueuedIds(tx)| ==> QueuedIds(tx)[i] != id
  {
    if tx != [] {
      assert tx[0].id != id;
      assert forall i :: 0 <= i < |tx[1..]| ==> tx[1..][i].id == tx[i + 1].id;
      NotQueuedIn(tx[1..], id);
    }
  }

  lemma {:induction false} QueuedIn(tx: seq<Packet>, i: nat) returns (j: nat)
    requires i < |QueuedIds(tx)|
    ensures j < |tx| && tx[j].queued && tx[j].id == QueuedIds(tx)[i]
  {
    if tx[0].queued && i == 0 { j := 0; }
    else {
      j := QueuedIn(tx[1..], if tx[0].queued then i - 1 else i);
      j := j + 1;
    }
  }

  /** A packet behind one that is dropped by identity does not carry that identity. */
  lemma ConsListed(ids: seq<nat>, p: Packet, rest: seq<Packet>)
    requires forall i :: 0 <= i < |ids| ==> ids[i] != p.id
    ensures Listed(ids, [p] + rest) == Listed(ids, rest)
  {
    forall i | 0 <= i < |ids| ensures IsIn([p] + rest, ids[i]) == IsIn(rest, ids[i]) {
      assert forall k :: 0 <= k < |rest| ==> ([p] + rest)[k + 1] == rest[k];
      if IsIn([p] + rest, ids[i]) {
        var k :| 0 <= k < |rest| + 1 && ([p] + rest)[k].id == ids[i];
        assert rest[k - 1].id == ids[i];
      }
    }
    ListedSame(ids, [p] + rest, rest);
  }

  lemma {:induction false} KeepQueued(tx: seq<Packet>, f: Filter)
    requires Pairs(tx)
    ensures QueuedIds(Keep(tx, f)) == Listed(QueuedIds(tx), Keep(tx, f))
  {
    if tx != [] {
      var p, rest := tx[0], tx[1..];
      KeepQueued(rest, f);
      StandsApart(tx, f);
      ConsListed(QueuedIds(rest), p, Keep(rest, f));
      QueuedFirst(p, Keep(rest, f));
      ListedFirst(p, QueuedIds(rest), Keep(tx, f));
      KeepFirst(tx, f);
      assert [p] + rest == tx;
      QueuedFirst(p, rest);
      assert [] + Listed(QueuedIds(rest), Keep(rest, f)) == Listed(QueuedIds(rest), Keep(rest, f));
      hide Listed, Passes, IsIn, Keep;
    }
  }

  /** The identity of the first packet is neither flagged nor kept behind it. */
  lemma StandsApart(tx: seq<Packet>, f: Filter)
    requires Pairs(tx) && tx != []
    ensures forall i :: 0 <= i < |QueuedIds(tx[1..])| ==> QueuedIds(tx[1..])[i] != tx[0].id
    ensures IsIn(Keep(tx, f), tx[0].id) == Passes(tx[0], f)
  {
    var p, rest := tx[0], tx[1..];
    var kept, ids := Keep(rest, f), QueuedIds(rest);
    forall i | 0 <= i < |ids| ensures ids[i] != p.id {
      var j := QueuedIn(rest, i);
      assert Pair(tx[0], tx[j + 1]);
    }
    forall i | 0 <= i < |kept| ensures kept[i].id != p.id {
      var j := KeepFrom(rest, f, i);
      assert Pair(tx[0], tx[j + 1]);
    }
    var one: seq<Packet> := [p];
    if Passes(p, f) { assert Keep(tx, f) == one + kept && (one + kept)[0].id == p.id; }
  }

  lemma QueuedFirst(p: Packet, rest: seq<Packet>)
    ensures QueuedIds([p] + rest) == if p.queued then [p.id] + QueuedIds(rest) else QueuedIds(rest)
  {
    assert ([p] + rest)[1..] == rest;
  }

  lemma ListedFirst(p: Packet, ids: seq<nat>, tx: seq<Packet>)
    ensures Listed([p.id] + ids, tx) == (if IsIn(tx, p.id) then [p.id] else []) + Listed(ids, tx)
  {
    assert ([p.id] + ids)[1..] == ids;
  }

  lemma KeepTxOk(tx: seq<Packet>, f: Filter, pending: seq<nat>, now: nat, nextId: nat, links: nat)
    requires TxOk(tx, pending, now, nextId, links)
    ensures TxOk(Keep(tx, f), pending, now, nextId, links)
  {
    KeepPairs(tx, f);
    KeepEach(tx, f, now, nextId, links);
    KeepIn(tx, f);
    KeepQueued(tx, f);
    ListedTwice(pending, tx, Keep(tx, f));
  }

  // ---------------------------------------------------------------- insertion

  lemma {:induction false} QueuedConcat(a: seq<Packet>, b: seq<Packet>)
    ensures QueuedIds(a + b) == QueuedIds(a) + QueuedIds(b)
  {
    if a == [] { assert a + b == b; }
    else {
      assert (a + b)[1..] == a[1..] + b && (a + b)[0] == a[0];
      QueuedConcat(a[1..], b);
    }
  }

  lemma InsertPairs(tx: seq<Packet>, p: Packet, now: nat, nextId: nat, links: nat)
    requires Pairs(tx) && Each(tx, now, nextId, links) && !p.queued && now <= p.sendAt && !IsIn(tx, p.id)
    ensures Pairs(Insert(tx, p))
  {
    hide Position, Insert;
    var k := Position(tx, p.sendAt);
    var r := Insert(tx, p);
    InsertAt(tx, p);
    forall i, j | 0 <= i < j < |r| ensures Pair(r[i], r[j]) {
      if j < k { assert r[i] == tx[i] && r[j] == tx[j] && Pair(tx[i], tx[j]); }
      else if j == k { assert r[i] == tx[i] && r[j] == p; InFront(tx, p, i); }
      else if i < k { assert r[i] == tx[i] && r[j] == tx[j - 1] && Pair(tx[i], tx[j - 1]); }
      else if i == k { assert r[i] == p && r[j] == tx[j - 1]; Behind(tx, p, j - 1, now, nextId, links); }
      else { assert r[i] == tx[i - 1] && r[j] == tx[j - 1] && Pair(tx[i - 1], tx[j - 1]); }
    }
  }

  lemma InFront(tx: seq<Packet>, p: Packet, i: nat)
    requires i < Position(tx, p.sendAt) && !p.queued && !IsIn(tx, p.id)
    ensures Pair(tx[i], p)
  {
    hide Position;
    assert tx[i].id != p.id;
  }

  lemma Behind(tx: seq<Packet>, p: Packet, i: nat, now: nat, nextId: nat, links: nat)
    requires Pairs(tx) && Each(tx, now, nextId, links) && now <= p.sendAt && !IsIn(tx, p.id)
    requires Position(tx, p.sendAt) <= i < |tx|
    ensures Pair(p, tx[i])
  {
    hide Position;
    var k := Position(tx, p.sendAt);
    assert tx[i].id != p.id && tx[k].sendAt > p.sendAt;
    if i > k { assert Pair(tx[k], tx[i]); }
  }

  /** Where each packet of the longer list comes from. */
  lemma InsertAt(tx: seq<Packet>, p: Packet)
    ensures var k, r := Position(tx, p.sendAt), Insert(tx, p);
            && |r| == |tx| + 1
            && forall i :: 0 <= i < |r| ==> r[i] == if i < k then tx[i] else if i == k then p else tx[i - 1]
  {
    hide Position;
  }

  lemma InsertQueued(tx: seq<Packet>, p: Packet)
    requires !p.queued
    ensures QueuedIds(Insert(tx, p)) == QueuedIds(tx)
  {
    var k := Position(tx, p.sendAt);
    var a, b := tx[..k], tx[k..];
    assert QueuedIds([p]) == [];
    hide QueuedIds, Position;
    assert tx == a + b;
    QueuedConcat(a, b);
    QueuedConcat(a + [p], b);
    QueuedConcat(a, [p]);
  }

  lemma InsertIn(tx: seq<Packet>, p: Packet, id: nat)
    ensures IsIn(Insert(tx, p), id) == (IsIn(tx, id) || id == p.id)
  {
    var k := Position(tx, p.sendAt);
    var r := Insert(tx, p);
    InsertHolds(tx, p, k);
    hide Position;
    if IsIn(tx, id) {
      var j :| 0 <= j < |tx| && tx[j].id == id;
      var i := if j < k then j else j + 1;
      assert r[i] == tx[j];
    } else if id == p.id { assert r[k].id == id; }
    else {
      forall j | 0 <= j < |r| ensures r[j].id != id {
        if j < k { assert r[j] == tx[j]; } else if j > k { assert r[j] == tx[j - 1]; }
      }
    }
  }

  lemma InsertEach(tx: seq<Packet>, p: Packet, now: nat, nextId: nat, links: nat)
    requires Each(tx, now, nextId, links) && !p.queued && p.id < nextId && p.link < links
    ensures Each(Insert(tx, p), now, nextId, links)
  {
  }

  lemma InsertTxOk(tx: seq<Packet>, p: Packet, pending: seq<nat>, now: nat, nextId: nat, links: nat)
    requires TxOk(tx, pending, now, nextId, links)
    requires !p.queued && now <= p.sendAt && !IsIn(tx, p.id) && p.id < nextId && p.link < links
    requires forall i :: 0 <= i < |pending| ==> pending[i] != p.id
    ensures TxOk(Insert(tx, p), pending, now, nextId, links)
  {
    hide Insert, Pairs, Each, Listed, QueuedIds, IsIn;
    InsertPairs(tx, p, now, nextId, links);
    InsertEach(tx, p, now, nextId, links);
    InsertQueued(tx, p);
    forall i | 0 <= i < |pending| ensures IsIn(tx, pending[i]) == IsIn(Insert(tx, p), pending[i]) {
      InsertIn(tx, p, pending[i]);
    }
    ListedSame(pending, tx, Insert(tx, p));
  }

  // ---------------------------------------------------------------- the head leaves

  /** The action of a listed packet finds it flagged at the head. */
  lemma ActionFindsHead(tx: seq<Packet>, id: nat, rest: seq<nat>, now: nat, nextId: nat, links: nat)
    requires TxOk(tx, [id] + rest, now, nextId, links) && IsIn(tx, id)
    ensures tx[0].id == id && tx[0].queued
  {
    assert Listed([id] + rest, tx) == [id] + Listed(rest, tx);
    var j := QueuedIn(tx, 0);
    if j > 0 { assert Pair(tx[0], tx[j]); }
  }

  lemma HeadTxOk(tx: seq<Packet>, rest: seq<nat>, now: nat, nextId: nat, links: nat)
    requires tx != [] && TxOk(tx, [tx[0].id] + rest, now, nextId, links)
    ensures TxOk(tx[1..], rest, now, nextId, links)
    ensures !IsIn(tx[1..], tx[0].id) && forall i :: 0 <= i < |rest| ==> rest[i] != tx[0].id
  {
    var id, tail := tx[0].id, tx[1..];
    assert tx[0].id == id;
    assert ([id] + rest)[1..] == rest;
    assert Listed([id] + rest, tx) == [id] + Listed(rest, tx);
    ActionFindsHead(tx, id, rest, now, nextId, links);
    assert QueuedIds(tx) == [id] + QueuedIds(tail);
    assert ([id] + QueuedIds(tail))[1..] == QueuedIds(tail);
    assert ([id] + Listed(rest, tx))[1..] == Listed(rest, tx);
    assert forall i :: 0 <= i < |rest| ==> rest[i] == ([id] + rest)[i + 1];
    assert Listed(rest, tx) == QueuedIds(tail);
    forall i | 0 <= i < |tail| ensures tail[i].id != id { assert Pair(tx[0], tx[i + 1]); }
    NotQueuedIn(tail, id);
    if i :| 0 <= i < |rest| && rest[i] == id {
      var k := ListedHas(rest, tx, i);
      assert false;
    }
    assert tx == [tx[0]] + tail;
    ConsListed(rest, tx[0], tail);
  }

  lemma {:induction false} ListedHas(ids: seq<nat>, tx: seq<Packet>, i: nat) returns (k: nat)
    requires i < |ids| && IsIn(tx, ids[i])
    ensures k < |Listed(ids, tx)| && Listed(ids, tx)[k] == ids[i]
  {
    if i == 0 { k := 0; }
    else {
      k := ListedHas(ids[1..], tx, i - 1);
      if IsIn(tx, ids[0]) { k := k + 1; }
    }
  }

  /** An action whose packet is no longer listed is of no account. */
  lemma StaleTxOk(tx: seq<Packet>, id: nat, rest: seq<nat>, now: nat, nextId: nat, links: nat)
    requires TxOk(tx, [id] + rest, now, nextId, links) && !IsIn(tx, id)
    ensures TxOk(tx, rest, now, nextId, links)
  {
    assert forall i :: 0 <= i < |rest| ==> rest[i] == ([id] + rest)[i + 1];
    assert Listed([id] + rest, tx) == Listed(rest, tx);
  }

  // ---------------------------------------------------------------- the timer flags

  /** The number of packets that are due, from the head on. */
  function Due(tx: seq<Packet>, now: nat): (d: nat)
    ensures d <= |tx|
  {
    if tx == [] || tx[0].sendAt >= now then 0 else Due(tx[1..], now) + 1
  }

  predicate Taken(accepts: seq<bool>, i: nat) {
    i < |accepts| && accepts[i]
  }

  /** Once the queue has refused one of the first `d` posts, it refuses the later ones too. */
  predicate RefusesToTheEnd(accepts: seq<bool>, d: nat) {
    forall i, j :: 0 <= i < j < d ==> Taken(accepts, j) ==> Taken(accepts, i)
  }

  predicate NoneFlagged(tx: seq<Packet>) {
    forall i :: 0 <= i < |tx| ==> !tx[i].queued
  }

  lemma {:induction false} FlagAt(tx: seq<Packet>, now: nat, accepts: seq<bool>, i: nat)
    requires NoneFlagged(tx) && i < |tx|
    ensures Flag(tx, now, accepts).0[i] == tx[i].(queued := i < Due(tx, now) && Taken(accepts, i))
  {
    if tx[0].sendAt < now && i > 0 {
      FlagAt(tx[1..], now, if accepts == [] then [] else accepts[1..], i - 1);
    }
  }

  lemma {:induction false} FlagDue(tx: seq<Packet>, now: nat, i: nat)
    requires i < Due(tx, now)
    ensures tx[i].sendAt < now
  {
    if i > 0 { FlagDue(tx[1..], now, i - 1); }
  }

  lemma {:induction false} FlagPosts(tx: seq<Packet>, now: nat, accepts: seq<bool>)
    requires NoneFlagged(tx)
    ensures var r := Flag(tx, now, accepts);
            && SendIds(r.1) == QueuedIds(r.0)
            && forall i :: 0 <= i < |r.0| ==> r.0[i].id == tx[i].id
  {
    if tx != [] && tx[0].sendAt < now {
      var more := if accepts == [] then [] else accepts[1..];
      FlagPosts(tx[1..], now, more);
      var rest := Flag(tx[1..], now, more);
      var taken := accepts != [] && accepts[0];
      assert ([tx[0].(queued := taken)] + rest.0)[1..] == rest.0;
      if taken { assert ([Send(tx[0].id)] + rest.1)[1..] == rest.1; }
    } else {
      NoneQueued(tx);
    }
  }

  lemma {:induction false} NoneQueued(tx: seq<Packet>)
    requires NoneFlagged(tx)
    ensures QueuedIds(tx) == []
  {
    if tx != [] { NoneQueued(tx[1..]); }
  }

  lemma {:induction false} SendIdsConcat(a: seq<Action>, b: seq<Action>)
    ensures SendIds(a + b) == SendIds(a) + SendIds(b)
  {
    if a == [] { assert a + b == b; }
    else {
      assert (a + b)[1..] == a[1..] + b && (a + b)[0] == a[0];
      SendIdsConcat(a[1..], b);
    }
  }

  lemma PendingMore(hand: Option<Action>, actions: seq<Action>, more: seq<Action>)
    ensures Pending(hand, actions + more) == Pending(hand, actions) + SendIds(more)
  {
    var h := if hand.Some? then [hand.value] else [];
    assert h + (actions + more) == (h + actions) + more;
    SendIdsConcat(h + actions, more);
  }

  /** The list after a run of the timer. */
  function Run(tx: seq<Packet>, now: nat, accepts: seq<bool>): (r: seq<Packet>)
    ensures |r| == |tx|
  {
    tx[..Flagged(tx)] + Flag(tx[Flagged(tx)..], now, accepts).0
  }

  function Posts(tx: seq<Packet>, now: nat, accepts: seq<bool>): seq<Action> {
    Flag(tx[Flagged(tx)..], now, accepts).1
  }

  lemma BehindFlagged(tx: seq<Packet>)
    requires Pairs(tx)
    ensures NoneFlagged(tx[Flagged(tx)..])
  {
    var k := Flagged(tx);
    forall i | 0 <= i < |tx[k..]| ensures !tx[k..][i].queued {
      if i > 0 { assert Pair(tx[k], tx[k + i]); }
    }
  }

  lemma RunAt(tx: seq<Packet>, now: nat, accepts: seq<bool>, i: nat)
    requires Pairs(tx) && i < |tx|
    ensures var k := Flagged(tx);
            Run(tx, now, accepts)[i] ==
            if i < k then tx[i] else tx[i].(queued := i - k < Due(tx[k..], now) && Taken(accepts, i - k))
  {
    var k := Flagged(tx);
    BehindFlagged(tx);
    if i >= k { FlagAt(tx[k..], now, accepts, i - k); }
  }

  lemma RunPairs(tx: seq<Packet>, now: nat, accepts: seq<bool>)
    requires Pairs(tx)
    ensures Pairs(Run(tx, now, accepts)) <==> RefusesToTheEnd(accepts, Due(tx[Flagged(tx)..], now))
  {
    if RefusesToTheEnd(accepts, Due(tx[Flagged(tx)..], now)) { RunKeepsPairs(tx, now, accepts); }
    else { RunBreaksPair(tx, now, accepts); }
    hide Pairs, Flagged, Due, Run, RefusesToTheEnd;
  }

  lemma RunKeepsPairs(tx: seq<Packet>, now: nat, accepts: seq<bool>)
    requires Pairs(tx) && RefusesToTheEnd(accepts, Due(tx[Flagged(tx)..], now))
    ensures Pairs(Run(tx, now, accepts))
  {
    hide Flagged, Due, Taken, Run;
    var r := Run(tx, now, accepts);
    forall i, j | 0 <= i < j < |r| ensures Pair(r[i], r[j]) {
      RunAt(tx, now, accepts, i);
      RunAt(tx, now, accepts, j);
      assert Pair(tx[i], tx[j]);
      FlaggedAt(tx, i);
    }
  }

  lemma RunBreaksPair(tx: seq<Packet>, now: nat, accepts: seq<bool>)
    requires Pairs(tx) && !RefusesToTheEnd(accepts, Due(tx[Flagged(tx)..], now))
    ensures !Pairs(Run(tx, now, accepts))
  {
    hide Flagged, Due, Taken, Run;
    var k := Flagged(tx);
    var i, j :| 0 <= i < j < Due(tx[k..], now) && Taken(accepts, j) && !Taken(accepts, i);
    DueWithin(tx, now);
    RunAt(tx, now, accepts, k + i);
    RunAt(tx, now, accepts, k + j);
    var r := Run(tx, now, accepts);
    assert !Pair(r[k + i], r[k + j]);
  }

  lemma FlaggedAt(tx: seq<Packet>, i: nat)
    requires i < |tx|
    ensures i < Flagged(tx) ==> tx[i].queued
  {
  }

  lemma DueWithin(tx: seq<Packet>, now: nat)
    ensures Flagged(tx) + Due(tx[Flagged(tx)..], now) <= |tx|
  {
  }

  lemma RunEach(tx: seq<Packet>, now: nat, accepts: seq<bool>, nextId: nat, links: nat)
    requires Pairs(tx) && Each(tx, now, nextId, links)
    ensures Each(Run(tx, now, accepts), now, nextId, links)
  {
    var k := Flagged(tx);
    var r := Run(tx, now, accepts);
    forall i | 0 <= i < |r| ensures r[i].id < nextId && r[i].link < links && (r[i].queued ==> r[i].sendAt < now) {
      RunAt(tx, now, accepts, i);
      if i >= k && i - k < Due(tx[k..], now) { FlagDue(tx[k..], now, i - k); }
    }
  }

  lemma RunIds(tx: seq<Packet>, now: nat, accepts: seq<bool>)
    requires Pairs(tx)
    ensures forall i :: 0 <= i < |tx| ==> Run(tx, now, accepts)[i].id == tx[i].id
  {
    forall i | 0 <= i < |tx| ensures Run(tx, now, accepts)[i].id == tx[i].id { RunAt(tx, now, accepts, i); }
  }

  /** The posts are those of the newly flagged packets. */
  lemma RunPosts(tx: seq<Packet>, now: nat, accepts: seq<bool>)
    requires Pairs(tx)
    ensures QueuedIds(Run(tx, now, accepts)) == QueuedIds(tx) + SendIds(Posts(tx, now, accepts))
  {
    var k := Flagged(tx);
    BehindFlagged(tx);
    FlagPosts(tx[k..], now, accepts);
    NoneQueued(tx[k..]);
    hide Flag, Flagged, QueuedIds, SendIds, NoneFlagged, Pairs;
    QueuedSplit(tx, k);
    QueuedConcat(tx[..k], Flag(tx[k..], now, accepts).0);
  }

  lemma QueuedSplit(tx: seq<Packet>, k: nat)
    requires k <= |tx|
    ensures QueuedIds(tx) == QueuedIds(tx[..k]) + QueuedIds(tx[k..])
  {
    hide QueuedIds;
    assert tx[..k] + tx[k..] == tx;
    QueuedConcat(tx[..k], tx[k..]);
  }

  lemma {:induction false} QueuedAreIn(r: seq<Packet>, a: seq<nat>, b: seq<nat>)
    requires QueuedIds(r) == a + b
    ensures forall i :: 0 <= i < |b| ==> IsIn(r, b[i])
  {
    forall i | 0 <= i < |b| ensures IsIn(r, b[i]) {
      var j := QueuedIn(r, |a| + i);
    }
  }

  lemma RunPending(tx: seq<Packet>, now: nat, accepts: seq<bool>, pending: seq<nat>)
    requires Pairs(tx) && Listed(pending, tx) == QueuedIds(tx)
    ensures var r := Run(tx, now, accepts); var posted := SendIds(Posts(tx, now, accepts));
            && Listed(pending + posted, r) == QueuedIds(r)
            && (forall i :: 0 <= i < |posted| ==> IsIn(tx, posted[i]))
  {
    var r := Run(tx, now, accepts);
    var posted := SendIds(Posts(tx, now, accepts));
    RunIds(tx, now, accepts);
    RunPosts(tx, now, accepts);
    hide Run, Posts, Listed, QueuedIds, IsIn;
    SameIdsListed(pending, tx, r);
    ListedConcat(pending, posted, r);
    SameIdsIn(tx, r, posted);
    QueuedAreIn(r, QueuedIds(tx), posted);
    ListedAll(posted, r);
  }

  lemma SameIdsIn(tx: seq<Packet>, r: seq<Packet>, ids: seq<nat>)
    requires |r| == |tx| && forall i :: 0 <= i < |r| ==> r[i].id == tx[i].id
    ensures forall i :: 0 <= i < |ids| ==> IsIn(tx, ids[i]) == IsIn(r, ids[i])
  {
    forall i | 0 <= i < |ids| ensures IsIn(tx, ids[i]) == IsIn(r, ids[i]) {
      if IsIn(tx, ids[i]) { var j :| 0 <= j < |tx| && tx[j].id == ids[i]; assert r[j].id == ids[i]; }
      if IsIn(r, ids[i]) { var j :| 0 <= j < |r| && r[j].id == ids[i]; assert tx[j].id == ids[i]; }
    }
  }

  lemma SameIdsListed(ids: seq<nat>, tx: seq<Packet>, r: seq<Packet>)
    requires |r| == |tx| && forall i :: 0 <= i < |r| ==> r[i].id == tx[i].id
    ensures Listed(ids, tx) == Listed(ids, r)
  {
    SameIdsIn(tx, r, ids);
    ListedSame(ids, tx, r);
  }

  /**
   * A run of the timer keeps the protocol exactly when the action queue, once it has refused a post,
   * refuses the rest of that run.
   */
  lemma RunTxOk(tx: seq<Packet>, pending: seq<nat>, now: nat, nextId: nat, links: nat, accepts: seq<bool>)
    requires TxOk(tx, pending, now, nextId, links)
    ensures TxOk(Run(tx, now, accepts), pending + SendIds(Posts(tx, now, accepts)), now, nextId, links) ==
            RefusesToTheEnd(accepts, Due(tx[Flagged(tx)..], now))
  {
    hide Run, Posts, Listed, QueuedIds, RefusesToTheEnd;
    RunPairs(tx, now, accepts);
    RunEach(tx, now, accepts, nextId, links);
    RunPending(tx, now, accepts, pending);
    forall i | 0 <= i < |SendIds(Posts(tx, now, accepts))| ensures SendIds(Posts(tx, now, accepts))[i] < nextId {
      assert IsIn(tx, SendIds(Posts(tx, now, accepts))[i]);
    }
  }

  /** Lists of packets that differ in what they carry only. */
  predicate SameShape(tx: seq<Packet>, r: seq<Packet>) {
    |r| == |tx| && forall i :: 0 <= i < |tx| ==>
      r[i].id == tx[i].id && r[i].link == tx[i].link && r[i].sendAt == tx[i].sendAt && r[i].queued == tx[i].queued
  }

  lemma {:induction false} SameShapeQueued(tx: seq<Packet>, r: seq<Packet>)
    requires SameShape(tx, r)
    ensures QueuedIds(r) == QueuedIds(tx)
  {
    if tx != [] { SameShapeQueued(tx[1..], r[1..]); }
  }

  lemma SameShapeTxOk(tx: seq<Packet>, r: seq<Packet>, pending: seq<nat>, now: nat, nextId: nat, links: nat)
    requires SameShape(tx, r) && TxOk(tx, pending, now, nextId, links)
    ensures TxOk(r, pending, now, nextId, links)
  {
    SameShapeQueued(tx, r);
    SameIdsListed(pending, tx, r);
    forall i, j | 0 <= i < j < |r| ensures Pair(r[i], r[j]) { assert Pair(tx[i], tx[j]); }
  }

  /** Time passes and identities are spent. */
  lemma LaterTxOk(tx: seq<Packet>, pending: seq<nat>, now: nat, nextId: nat, links: nat, later: nat, id: nat)
    requires TxOk(tx, pending, now, nextId, links) && now <= later && nextId <= id
    ensures TxOk(tx, pending, later, id, links)
  {
  }
}
