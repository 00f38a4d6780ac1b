/**
 When the action queue is full: which posts of one run of the timer it refuses, and what becomes of a
 packet whose post overtook a refused one.
 */
module QueueRefusals {
  import Txt
  import opened TxQueue
  import opened Responder
  import opened Protocol
  import opened ResponderRuns

  // ---------------------------------------------------------------- a queue of limited capacity

  /**
   * The posts of one run of the timer, with `free` places left at its start: `takes[i]` actions leave
   * the queue in front of post `i`, as the service task takes them without the lock.
   */
  function Accepts(free: nat, takes: seq<nat>): (r: seq<bool>)
    ensures |r| == |takes|
    decreases |takes|
  {
    if takes == [] then []
    else
      var room := free + takes[0];
      [room > 0] + Accepts(if room > 0 then room - 1 else 0, takes[1..])
  }

  predicate NothingTaken(takes: seq<nat>) {
    forall i :: 0 <= i < |takes| ==> takes[i] == 0
  }

  /** Once a post has been refused, no action leaves the queue before the run ends. */
  predicate QuietOnceFull(free: nat, takes: seq<nat>)
    decreases |takes|
  {
    takes == [] ||
    var room := free + takes[0];
    if room > 0 then QuietOnceFull(room - 1, takes[1..]) else NothingTaken(takes)
  }

  lemma {:induction false} FullAndQuiet(takes: seq<nat>, i: nat)
    requires NothingTaken(takes) && i < |takes|
    ensures !Taken(Accepts(0, takes), i)
  {
    if i > 0 { FullAndQuiet(takes[1..], i - 1); }
  }

  lemma {:induction false} TakenIsAccepted(takes: seq<nat>)
    requires !NothingTaken(takes)
    ensures exists j :: 0 <= j < |takes| && Taken(Accepts(0, takes), j)
  {
    if takes[0] > 0 { assert Taken(Accepts(0, takes), 0); }
    else {
      TakenIsAccepted(takes[1..]);
      var j :| 0 <= j < |takes[1..]| && Taken(Accepts(0, takes[1..]), j);
      assert Taken(Accepts(0, takes), j + 1);
    }
  }

  /** The queue refuses to the end exactly when nothing leaves it once it has refused. */
  lemma {:induction false} RefusalsLast(free: nat, takes: seq<nat>)
    ensures RefusesToTheEnd(Accepts(free, takes), |takes|) <==> QuietOnceFull(free, takes)
    decreases |takes|
  {
    if takes != [] {
      var room := free + takes[0];
      var rest := Accepts(if room > 0 then room - 1 else 0, takes[1..]);
      var all := Accepts(free, takes);
      assert all == [room > 0] + rest;
      if room > 0 {
        RefusalsLast(room - 1, takes[1..]);
        ConsRefuses(rest);
      } else {
        assert !Taken(all, 0);
        if NothingTaken(takes) {
          forall i | 0 <= i < |takes| ensures !Taken(all, i) { FullAndQuiet(takes, i); }
        } else {
          TakenIsAccepted(takes);
        }
      }
    }
  }

  lemma ConsRefuses(rest: seq<bool>)
    ensures RefusesToTheEnd([true] + rest, |rest| + 1) <==> RefusesToTheEnd(rest, |rest|)
  {
    var all := [true] + rest;
    assert forall i :: 0 <= i < |rest| ==> (Taken(all, i + 1) <==> Taken(rest, i));
    if RefusesToTheEnd(rest, |rest|) {
      forall i, j | 0 <= i < j < |all| && Taken(all, j) ensures Taken(all, i) {
        if i > 0 { assert Taken(rest, j - 1) && Taken(rest, i - 1); }
      }
    }
    if RefusesToTheEnd(all, |all|) {
      forall i, j | 0 <= i < j < |rest| && Taken(rest, j) ensures Taken(rest, i) {
        assert Taken(all, j + 1) && Taken(all, i + 1);
      }
    }
  }

  /** If the service task takes nothing during a run, no number of free places lets a post overtake another. */
  lemma UndisturbedIsSafe(free: nat, takes: seq<nat>)
    requires NothingTaken(takes)
    ensures RefusesToTheEnd(Accepts(free, takes), |takes|)
  {
    QuietWithoutTakes(free, takes);
    RefusalsLast(free, takes);
  }

  lemma {:induction false} QuietWithoutTakes(free: nat, takes: seq<nat>)
    requires NothingTaken(takes)
    ensures QuietOnceFull(free, takes)
  {
    if takes != [] && free > 0 { QuietWithoutTakes(free - 1, takes[1..]); }
  }

  // ---------------------------------------------------------------- a post that overtakes another

  predicate AllOther(actions: seq<Action>) {
    forall i :: 0 <= i < |actions| ==> actions[i].Other?
  }

  /** The service task works through `n` actions. */
  function Drain(n: nat): seq<Step> {
    if n == 0 then [] else Drain(n - 1) + [Take, Act]
  }

  lemma {:induction false} AfterRunMore(st: State, a: seq<Step>, b: seq<Step>)
    ensures AfterRun(st, a + b) == AfterRun(AfterRun(st, a), b)
    decreases |b|
  {
    hide Next, Allowed, Sane;
    if b == [] { assert a + b == a; }
    else {
      var less, all := b[..|b| - 1], a + b;
      AfterRunMore(st, a, less);
      assert all[..|all| - 1] == a + less && all[|all| - 1] == b[|b| - 1];
    }
  }

  lemma OneStep(st: State, step: Step)
    ensures AfterRun(st, [step]) == if Sane(st) && Allowed(st, step) then Next(st, step) else st
  {
    assert [step][..0] == [];
    assert AfterRun(st, []) == st;
  }

  lemma TwoSteps(st: State, a: Step, b: Step)
    ensures AfterRun(st, [a, b]) == AfterRun(AfterRun(st, [a]), [b])
  {
    AfterRunMore(st, [a], [b]);
    assert [a] + [b] == [a, b];
  }

  lemma TakeAndAct(st: State)
    requires Sane(st) && st.hand == Txt.None && st.actions != [] && st.actions[0].Other?
    ensures AfterRun(st, [Take, Act]) == st.(actions := st.actions[1..])
  {
    TwoSteps(st, Take, Act);
    OneStep(st, Take);
    var s := st.(hand := Txt.Some(st.actions[0]), actions := st.actions[1..]);
    OneStep(s, Act);
    assert s.(hand := Txt.None) == st.(actions := st.actions[1..]);
  }

  lemma {:induction false} Drained(st: State, n: nat)
    requires Sane(st) && st.hand == Txt.None && n <= |st.actions| && AllOther(st.actions[..n])
    ensures AfterRun(st, Drain(n)) == st.(actions := st.actions[n..])
  {
    hide AfterRun, Sane;
    if n == 0 { NothingDrained(st); }
    else {
      assert AllOther(st.actions[..n - 1]) && st.actions[n - 1] == st.actions[..n][n - 1];
      Drained(st, n - 1);
      AfterRunMore(st, Drain(n - 1), [Take, Act]);
      var s := st.(actions := st.actions[n - 1..]);
      SameLists(st, s);
      TakeAndAct(s);
      assert s.actions[1..] == st.actions[n..];
    }
  }

  lemma NothingDrained(st: State)
    ensures AfterRun(st, Drain(0)) == st.(actions := st.actions[0..])
  {
  }

  lemma SameLists(st: State, s: State)
    requires Sane(st) && s == st.(actions := s.actions)
    ensures Sane(s)
  {
  }

  /** Two packets are due, and the queue is full of other actions. */
  predicate FullQueue(st: State, a: Packet, b: Packet) {
    && Sane(st) && st.tx == [a, b] && a.id != b.id && !a.queued && !b.queued && a.sendAt < st.now && b.sendAt < st.now
    && st.hand == Txt.None && st.actions != [] && AllOther(st.actions)
  }

  /** The run in which the service task takes one action between the two posts, and works on until the packet's own. */
  function Overtaking(n: nat): seq<Step> {
    [Timer(Accepts(0, [0, 1]))] + Drain(n) + [Take, Act]
  }

  lemma TimerPasses(st: State, a: Packet, b: Packet)
    requires FullQueue(st, a, b)
    ensures Accepts(0, [0, 1]) == [false, true]
    ensures SchedulerRun(st, [false, true]) ==
            st.(tx := [a, b.(queued := true)], actions := st.actions + [Send(b.id)])
  {
    assert [0, 1][1..] == [1] && Accepts(0, [1]) == [true];
    assert st.tx[0..] == [a, b] && [a, b][1..] == [b] && [b][1..] == [];
    assert [false, true][1..] == [true] && [true][1..] == [];
    assert Flag([b][1..], st.now, []) == ([], []);
    assert [b.(queued := true)] + [] == [b.(queued := true)] && [Send(b.id)] + [] == [Send(b.id)];
    assert Flag([b], st.now, [true]) == ([b.(queued := true)], [Send(b.id)]);
    assert a.(queued := false) == a && [a] + [b.(queued := true)] == [a, b.(queued := true)];
    assert Flag([a, b][1..], st.now, [false, true][1..]) == Flag([b], st.now, [true]);
    assert Flag([a, b], st.now, [false, true]) == ([a, b.(queued := true)], [Send(b.id)]);
    assert st.tx[..0] + [a, b.(queued := true)] == [a, b.(queued := true)];
  }

  /** The state when the service task has come to the action of the second packet. */
  function Overtaken(st: State, a: Packet, b: Packet): State {
    st.(tx := [a, b.(queued := true)], actions := [Send(b.id)])
  }

  lemma SaneOvertaken(st: State, a: Packet, b: Packet, actions: seq<Action>)
    requires FullQueue(st, a, b)
    ensures a.link < |st.pcbs| && b.link < |st.pcbs| && Sane(st.(tx := [a, b.(queued := true)], actions := actions))
  {
    assert st.tx[0] == a && st.tx[1] == b;
  }

  lemma ComesToIt(st: State, a: Packet, b: Packet)
    requires FullQueue(st, a, b)
    ensures AfterRun(st, [Timer(Accepts(0, [0, 1]))] + Drain(|st.actions|)) == Overtaken(st, a, b)
  {
    TimerPasses(st, a, b);
    var n, timer := |st.actions|, Timer(Accepts(0, [0, 1]));
    var s := st.(tx := [a, b.(queued := true)], actions := st.actions + [Send(b.id)]);
    SaneOvertaken(st, a, b, st.actions + [Send(b.id)]);
    OneStep(st, timer);
    hide AfterRun, Drain, Sane, SchedulerRun;
    AfterRunMore(st, [timer], Drain(n));
    assert s.actions[..n] == st.actions && s.actions[n..] == [Send(b.id)];
    Drained(s, n);
  }

  /** The action finds another packet at the head. */
  lemma IsDropped(st: State, a: Packet, b: Packet)
    requires FullQueue(st, a, b)
    ensures AfterRun(Overtaken(st, a, b), [Take, Act]) == st.(tx := [a, b.(queued := true)], actions := [])
  {
    var t := Overtaken(st, a, b);
    SaneOvertaken(st, a, b, [Send(b.id)]);
    SaneOvertaken(st, a, b, []);
    var u := t.(hand := Txt.Some(Send(b.id)), actions := []);
    assert [Send(b.id)][1..] == [];
    hide AfterRun;
    TwoSteps(t, Take, Act);
    OneStep(t, Take);
    OneStep(u, Act);
  }

  /**
   * The queue is full and refuses the first packet; the service task takes an action, and the second
   * packet's post is accepted. Its action finds the first packet at the head and is dropped: the second
   * is left flagged, with no action on its way.
   */
  lemma OvertakerIsDropped(st: State, a: Packet, b: Packet)
    requires FullQueue(st, a, b)
    ensures AfterRun(st, Overtaking(|st.actions|)) == st.(tx := [a, b.(queued := true)], actions := [])
  {
    hide AfterRun, Drain, FullQueue;
    ComesToIt(st, a, b);
    IsDropped(st, a, b);
    AfterRunMore(st, [Timer(Accepts(0, [0, 1]))] + Drain(|st.actions|), [Take, Act]);
  }

  /** If the next run of the timer is not refused, it posts both packets, the flagged one once more. */
  lemma NextRunPostsBoth(st: State, a: Packet, b: Packet)
    requires st.tx == [a, b] && !a.queued && b.queued && a.sendAt < st.now && b.sendAt < st.now
    ensures SchedulerRun(st, [true, true]).actions == st.actions + [Send(a.id), Send(b.id)]
  {
    assert st.tx[0..] == [a, b] && [a, b][1..] == [b] && [b][1..] == [];
    assert [true, true][1..] == [true] && [true][1..] == [];
    assert Flag([b][1..], st.now, []) == ([], []);
    assert [Send(b.id)] + [] == [Send(b.id)];
    assert Flag([b], st.now, [true]).1 == [Send(b.id)];
    assert [Send(a.id)] + [Send(b.id)] == [Send(a.id), Send(b.id)];
    assert Flag([a, b][1..], st.now, [true, true][1..]) == Flag([b], st.now, [true]);
    assert Flag([a, b], st.now, [true, true]).1 == [Send(a.id), Send(b.id)];
  }

  // ---------------------------------------------------------------- a queue that is jammed

  /** The head of the list is flagged and no action for it is on its way. */
  predicate Jammed(st: State) {
    && Sane(st) && st.tx != [] && st.tx[0].queued && st.tx[0].sendAt <= st.now
    && (forall i :: 1 <= i < |st.tx| ==> st.tx[i].id != st.tx[0].id) && st.tx[0].id < st.nextId
    && var ids := Pending(st.hand, st.actions); forall i :: 0 <= i < |ids| ==> ids[i] != st.tx[0].id
  }

  /** Time, the timer, the service task, other posts and replies. */
  predicate Ordinary(step: Step) {
    step.Tick? || step.Timer? || step.Post? || step.Take? || step.Act? || step.Response?
  }

  /** If the overtaken packet's link is taken down, its overtaker is left at the head. */
  lemma OvertakerJams(st: State, a: Packet, b: Packet)
    requires FullQueue(st, a, b) && a.link != b.link && b.id < st.nextId
    requires a.link < |st.pcbs| && st.pcbs[a.link].ready
    ensures var s := AfterRun(st, Overtaking(|st.actions|));
            |s.pcbs| == |st.pcbs| && Jammed(Disable(s, a.link)) && Disable(s, a.link).tx == [b.(queued := true)]
  {
    hide AfterRun, Overtaking, Jammed, Disable;
    OvertakerIsDropped(st, a, b);
    LeftAlone(st, a, b);
  }

  lemma LeftAlone(st: State, a: Packet, b: Packet)
    requires FullQueue(st, a, b) && a.link != b.link && b.id < st.nextId
    requires a.link < |st.pcbs| && st.pcbs[a.link].ready
    ensures var s := st.(tx := [a, b.(queued := true)], actions := []);
            Jammed(Disable(s, a.link)) && Disable(s, a.link).tx == [b.(queued := true)]
  {
    SaneOvertaken(st, a, b, []);
    var s := st.(tx := [a, b.(queued := true)], actions := []);
    DropFirst(a, b.(queued := true));
    assert Pending(Txt.None, []) == [];
    var d := Disable(s, a.link);
    hide WithoutLink, Pending;
    assert d.tx == [b.(queued := true)] && d.hand == Txt.None && d.actions == [];
    assert forall l :: 0 <= l < |d.pcbs| ==> d.pcbs[l] == st.pcbs[l] || d.pcbs[l].services == [];
  }

  lemma DropFirst(a: Packet, b: Packet)
    requires a.link != b.link
    ensures WithoutLink([a, b], a.link) == [b]
  {
    assert [a, b] == [a] + [b];
    KeepConcat([a], [b], OffLink(a.link));
    KeepNone([a], OffLink(a.link));
    KeepAll([b], OffLink(a.link));
  }

  /** Posts are those of packets that become flagged behind the head. */
  lemma {:induction false} PostsOfOthers(tx: seq<Packet>, now: nat, accepts: seq<bool>, id: nat)
    requires forall i :: 0 <= i < |tx| ==> tx[i].id != id
    ensures var r := Flag(tx, now, accepts);
            && (forall i :: 0 <= i < |SendIds(r.1)| ==> SendIds(r.1)[i] != id)
            && (forall i :: 0 <= i < |tx| ==> r.0[i].id == tx[i].id && r.0[i].link == tx[i].link)
  {
    if tx != [] && tx[0].sendAt < now {
      var more := if accepts == [] then [] else accepts[1..];
      PostsOfOthers(tx[1..], now, more, id);
      var (rest, posted) := Flag(tx[1..], now, more);
      var own := if accepts != [] && accepts[0] then [Send(tx[0].id)] else [];
      assert Flag(tx, now, accepts).1 == own + posted;
      SendIdsConcat(own, posted);
      if own != [] { assert own[1..] == [] && SendIds(own) == [tx[0].id]; }
      assert forall i :: 0 <= i < |tx[1..]| ==> tx[1..][i] == tx[i + 1];
    }
  }

  lemma JammedTimer(st: State, accepts: seq<bool>)
    requires Jammed(st)
    ensures var r := SchedulerRun(st, accepts);
            Jammed(r) && r.tx[0] == st.tx[0] && |r.tx| == |st.tx| && r.trace == st.trace
  {
    var k, head := Flagged(st.tx), st.tx[0];
    assert k > 0;
    var rest := st.tx[k..];
    forall i | 0 <= i < |rest| ensures rest[i].id != head.id { assert rest[i] == st.tx[k + i]; }
    PostsOfOthers(rest, st.now, accepts, head.id);
    var (flagged, posted) := Flag(rest, st.now, accepts);
    PendingMore(st.hand, st.actions, posted);
    var r := SchedulerRun(st, accepts);
    hide Flag, Flagged, Pending, SendIds;
    forall i | 0 <= i < |r.tx| ensures r.tx[i].id == st.tx[i].id && r.tx[i].link == st.tx[i].link {
      if i >= k { assert r.tx[i] == flagged[i - k] && rest[i - k] == st.tx[i]; }
    }
  }

  lemma JammedTake(st: State)
    requires Jammed(st) && st.hand == Txt.None && st.actions != []
    ensures var r := st.(hand := Txt.Some(st.actions[0]), actions := st.actions[1..]); Jammed(r)
  {
    assert [st.actions[0]] + st.actions[1..] == st.actions && [] + st.actions == st.actions;
    assert Pending(Txt.Some(st.actions[0]), st.actions[1..]) == Pending(st.hand, st.actions);
  }

  lemma JammedAct(st: State)
    requires Jammed(st) && st.hand.Some?
    ensures Jammed(Next(st, Act)) && Next(st, Act).tx == st.tx && Next(st, Act).trace == st.trace
  {
    var a := st.hand.value;
    var rest := Pending(Txt.None, st.actions);
    assert ([a] + st.actions)[1..] == st.actions && [] + st.actions == st.actions;
    assert Pending(st.hand, st.actions) == (if a.Send? then [a.id] else []) + rest;
    if a.Send? {
      assert ([a.id] + rest)[0] == a.id;
      assert forall i :: 0 <= i < |rest| ==> ([a.id] + rest)[i + 1] == rest[i];
    } else {
      assert [] + rest == rest;
    }
  }

  lemma JammedResponse(st: State, step: Step)
    requires Jammed(st) && step.Response? && Allowed(st, step)
    ensures var r := Next(st, step);
            Jammed(r) && r.tx[0] == st.tx[0] && |r.tx| >= |st.tx|
  {
    hide Pending, Insert;
    var m := NewPacket(st, step.link, true).(questions := step.questions, answers := step.answers,
                                              additional := step.additional, distributed := step.distributed);
    var p := m.(sendAt := st.now + (25 + step.step % 4 * 25));
    JammedInsert(st, p);
    var r := Next(st, step);
    assert r.tx == st.tx || r.tx == Insert(st.tx, p);
    assert r.pcbs == st.pcbs && r.heap == st.heap && r.listed == st.listed && r.now == st.now;
  }

  lemma JammedInsert(st: State, p: Packet)
    requires Jammed(st) && p.sendAt >= st.now && p.id == st.nextId
    ensures var tx := Insert(st.tx, p);
            && |tx| == |st.tx| + 1 && tx[0] == st.tx[0]
            && (forall i :: 1 <= i < |tx| ==> tx[i].id != tx[0].id)
            && (p.link < |st.pcbs| ==> OnLinks(tx, |st.pcbs|))
  {
    hide Pending;
    var k, tx := Position(st.tx, p.sendAt), Insert(st.tx, p);
    assert k > 0;
    hide Position;
    forall i | 0 <= i < |tx| ensures tx[i] == if i < k then st.tx[i] else if i == k then p else st.tx[i - 1] {}
  }

  /**
   * A jammed queue stays so: whatever time passes, however often the timer runs and however many actions
   * are handled, the head is never sent, nor does any other packet leave the list.
   */
  lemma {:induction false} JammedForGood(st: State, steps: seq<Step>)
    requires Jammed(st) && forall i :: 0 <= i < |steps| ==> Ordinary(steps[i])
    ensures var r := AfterRun(st, steps); Jammed(r) && r.tx[0] == st.tx[0] && |r.tx| >= |st.tx|
  {
    if steps != [] {
      var before, step := steps[..|steps| - 1], steps[|steps| - 1];
      JammedForGood(st, before);
      var s := AfterRun(st, before);
      if Allowed(s, step) {
        JammedStep(s, step);
      }
    }
  }

  lemma JammedStep(st: State, step: Step)
    requires Jammed(st) && Ordinary(step) && Allowed(st, step)
    ensures var r := Next(st, step); Jammed(r) && r.tx[0] == st.tx[0] && |r.tx| >= |st.tx|
  {
    match step
    case Timer(accepts) => JammedTimer(st, accepts);
    case Take => JammedTake(st);
    case Act => JammedAct(st);
    case Response(_, _, _, _, _, _, _) => JammedResponse(st, step);
    case Post => PendingMore(st.hand, st.actions, [Other]); assert SendIds([Other]) == [];
    case Tick(_) =>
  }
}
