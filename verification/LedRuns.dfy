/**
 What the LED shows over whole runs of the sequencer: invariants under any use of its interface, the
 flat pulse train a frame is meant to be, fairness while patterns are toggled, and the priority and
 cyclic output of continuous patterns.
 */
module LedRuns {
  import opened LedSequencer
  import opened Lists

  /** A configuration the schema admits, with no empty sequence. */
  predicate Playable(ps: seq<Pattern>) {
    forall i :: 0 <= i < |ps| ==> PlayablePattern(ps[i])
  }

  predicate PlayablePattern(p: Pattern) {
    p.sequence != [] && forall k :: 0 <= k < |p.sequence| ==> 1 <= p.sequence[k].repeat <= 0xFF
  }

  // ---------------------------------------------------------------- invariants of every run

  /** The pin is high exactly in phase ON, and a cursor that is in use is in range. */
  predicate Inv(c: Core) {
    && Playable(c.patterns)
    && (c.pin <==> c.phase.On?)
    && (c.phase.On? || c.phase.Off? ==>
          0 <= c.pat < |c.patterns| && 0 <= c.step < |c.patterns[c.pat].sequence|
          && c.pulse < c.patterns[c.pat].sequence[c.step].repeat)
    && (c.phase.InterGap? ==> 0 <= c.pat < |c.patterns|)
    && c.pulse < 0x100
  }

  /** What the rest of the firmware can do: let time pass, or use the public interface. */
  datatype Op = Call | SetPattern(id: string, active: bool) | ClearAll

  function Exec(c: Core, op: Op): Core
    requires Safe(c)
  {
    match op
    case Call => Next(c).0
    case SetPattern(id, active) => c.(patterns := SetActive(c.patterns, id, active))
    case ClearAll => c.(patterns := ClearActive(c.patterns))
  }

  /** The tables differ in nothing but active flags. */
  predicate SameTable(a: seq<Pattern>, b: seq<Pattern>) {
    |a| == |b| && forall i :: 0 <= i < |a| ==> a[i].(active := b[i].active) == b[i]
  }

  lemma {:induction false} SetActiveSame(ps: seq<Pattern>, id: string, active: bool)
    ensures SameTable(ps, SetActive(ps, id, active))
  {
    if ps != [] && ps[0].id != id {
      SetActiveSame(ps[1..], id, active);
      assert forall i :: 1 <= i < |ps| ==> ps[i] == ps[1..][i - 1];
    }
  }

  lemma SameTablePlayable(a: seq<Pattern>, b: seq<Pattern>)
    requires SameTable(a, b) && Playable(a)
    ensures Playable(b)
  {
    forall i | 0 <= i < |b| ensures PlayablePattern(b[i]) {
      assert PlayablePattern(a[i]) && a[i].sequence == b[i].sequence;
    }
  }

  lemma SameTableInv(c: Core, ps: seq<Pattern>)
    requires Inv(c) && SameTable(c.patterns, ps)
    ensures Inv(c.(patterns := ps))
  {
    SameTablePlayable(c.patterns, ps);
  }

  lemma InvSafe(c: Core)
    requires Inv(c)
    ensures Safe(c)
  {
  }

  /** The invariant, and the configuration, are as before. */
  predicate Kept(c: Core, e: Core) {
    Inv(e) && e.patterns == c.patterns && e.interGap == c.interGap && e.frameGap == c.frameGap
  }

  lemma StartInv(c: Core, i: nat)
    requires Inv(c) && i < |c.patterns|
    ensures c.patterns[i].sequence != [] && Kept(c, Start(c, i).0)
  {
    assert PlayablePattern(c.patterns[i]);
  }

  lemma ContinueInv(c: Core, cyclic: bool)
    requires Inv(c) && (c.phase.On? || c.phase.Off?)
    ensures Safe(c) && c.patterns[c.pat].sequence != []
    ensures var (e, ms) := Continue(c, cyclic);
            && (cyclic || ms >= 0 ==> Kept(c, e))
            && (ms < 0 ==> Kept(c, e.(phase := Idle, pin := false)) && e.pat == c.pat)
  {
    assert PlayablePattern(c.patterns[c.pat]);
    InvSafe(c);
  }

  lemma NextInv(c: Core)
    requires Inv(c)
    ensures Safe(c) && Inv(Next(c).0) && Next(c).0.patterns == c.patterns
    ensures Next(c).0.interGap == c.interGap && Next(c).0.frameGap == c.frameGap
  {
    InvSafe(c);
    if FirstContinuous(c.patterns, 0) >= 0 { ContinuousInv(c); } else { DefaultInv(c); }
    hide Next, FirstContinuous, Playable;
  }

  lemma ContinuousInv(c: Core)
    requires Inv(c) && FirstContinuous(c.patterns, 0) >= 0
    ensures Safe(c) && Kept(c, Next(c).0)
  {
    hide FirstContinuous, Start, Continue, Playable, Kept;
    InvSafe(c);
    StartInv(c, FirstContinuous(c.patterns, 0));
    if c.phase.On? || c.phase.Off? { ContinueInv(c, true); }
  }

  lemma DefaultInv(c: Core)
    requires Inv(c) && FirstContinuous(c.patterns, 0) < 0
    ensures Safe(c) && Kept(c, Next(c).0)
  {
    hide FirstContinuous, NextDefault, Start, Continue, Playable;
    InvSafe(c);
    if (c.phase.On? || c.phase.Off?) && !c.patterns[c.pat].continuous { ContinueInv(c, false); }
    else {
      var d := if c.phase.On? || c.phase.Off? then c.(phase := Idle, pin := false) else c;
      var next := NextDefault(c.patterns, if c.phase.InterGap? then c.pat + 1 else 0);
      if next >= 0 { StartInv(d, next); }
    }
  }

  lemma ExecInv(c: Core, op: Op)
    requires Inv(c)
    ensures Safe(c) && Inv(Exec(c, op)) && SameTable(c.patterns, Exec(c, op).patterns)
  {
    match op
    case Call => NextInv(c);
    case SetPattern(id, active) =>
      SetActiveSame(c.patterns, id, active);
      SameTableInv(c, SetActive(c.patterns, id, active));
    case ClearAll => SameTableInv(c, ClearActive(c.patterns));
  }

  function RunOps(c: Core, ops: seq<Op>): Core
    requires Inv(c)
    decreases |ops|
  {
    if ops == [] then c
    else
      ExecInv(c, ops[0]);
      RunOps(Exec(c, ops[0]), ops[1..])
  }

  /**
   Every run keeps the invariant, and after every call of the machine an active continuous pattern,
   the first in the table, is the one that plays.
   */
  lemma {:induction false} EveryRun(c: Core, ops: seq<Op>)
    requires Inv(c)
    ensures Inv(RunOps(c, ops))
    ensures ops != [] && ops[|ops| - 1].Call? ==>
              var d := RunOps(c, ops); var cont := FirstContinuous(d.patterns, 0);
              cont >= 0 ==> (d.phase.On? || d.phase.Off?) && d.pat == cont
    decreases |ops|
  {
    if ops != [] {
      ExecInv(c, ops[0]);
      var d := Exec(c, ops[0]);
      EveryRun(d, ops[1..]);
      if |ops| == 1 {
        assert RunOps(c, ops) == d;
        if ops[0].Call? { NextInv(c); PriorityOfContinuous(c); }
      } else {
        assert ops[1..][|ops| - 2] == ops[|ops| - 1];
      }
    }
  }

  lemma PriorityOfContinuous(c: Core)
    requires Inv(c)
    ensures var d := Next(c).0; var cont := FirstContinuous(c.patterns, 0);
            cont >= 0 ==> (d.phase.On? || d.phase.Off?) && d.pat == cont
  {
    InvSafe(c);
    hide FirstContinuous;
    assert forall i :: 0 <= i < |c.patterns| ==> PlayablePattern(c.patterns[i]);
  }

  // ---------------------------------------------------------------- the pulse train of a pattern

  /** The level of the pin and for how long it is held. */
  datatype Segment = Segment(level: bool, ms: nat)

  function Repeat<T>(s: seq<T>, n: nat): (r: seq<T>)
    ensures |r| == n * |s|
  {
    if n == 0 then [] else s + Repeat(s, n - 1)
  }

  function StepPulses(s: Step): seq<Segment> {
    Repeat([Segment(true, s.onMs), Segment(false, s.offMs)], s.repeat)
  }

  /** The flat pulse train of a sequence: each on/off pair as often as its step says. */
  function Pulses(sequence: seq<Step>): seq<Segment> {
    if sequence == [] then [] else StepPulses(sequence[0]) + Pulses(sequence[1..])
  }

  /** What is still to come behind the segment a cursor stands on. */
  function Rest(sequence: seq<Step>, step: nat, pulse: nat, on: bool): seq<Segment>
    requires step < |sequence|
    decreases |sequence| - step, sequence[step].repeat - pulse, on
  {
    var s := sequence[step];
    if on then [Segment(false, s.offMs)] + Rest(sequence, step, pulse, false)
    else if pulse + 1 < s.repeat then [Segment(true, s.onMs)] + Rest(sequence, step, pulse + 1, true)
    else if step + 1 < |sequence| then
      [Segment(true, sequence[step + 1].onMs)] + Rest(sequence, step + 1, 0, true)
    else []
  }

  /** What remains is the pulses left of the step and those of the steps behind it. */
  lemma {:induction false} RestIsFlat(sequence: seq<Step>, step: nat, pulse: nat)
    requires step < |sequence| && PlayableSteps(sequence) && pulse < sequence[step].repeat
    ensures var s := sequence[step];
            [Segment(true, s.onMs)] + Rest(sequence, step, pulse, true)
              == Repeat([Segment(true, s.onMs), Segment(false, s.offMs)], s.repeat - pulse) +
                 Pulses(sequence[step + 1..])
    decreases |sequence| - step, sequence[step].repeat - pulse
  {
    var s := sequence[step];
    var pair := [Segment(true, s.onMs), Segment(false, s.offMs)];
    if pulse + 1 < s.repeat {
      RestIsFlat(sequence, step, pulse + 1);
      assert [Segment(true, s.onMs)] + Rest(sequence, step, pulse, true)
          == pair + ([Segment(true, s.onMs)] + Rest(sequence, step, pulse + 1, true));
    } else if step + 1 < |sequence| {
      RestIsFlat(sequence, step + 1, 0);
      assert sequence[step + 1..][0] == sequence[step + 1] && sequence[step + 1..][1..] == sequence[step + 2..];
      assert Repeat(pair, 1) == pair + Repeat(pair, 0);
      assert [Segment(true, s.onMs)] + Rest(sequence, step, pulse, true)
          == pair + ([Segment(true, sequence[step + 1].onMs)] + Rest(sequence, step + 1, 0, true));
    } else {
      assert Repeat(pair, 1) == pair + Repeat(pair, 0);
      assert Rest(sequence, step, pulse, true) == [Segment(false, s.offMs)];
    }
  }

  predicate PlayableSteps(sequence: seq<Step>) {
    forall k :: 0 <= k < |sequence| ==> 1 <= sequence[k].repeat <= 0xFF
  }

  /** A pattern begins with its first pulse, and the rest follows. */
  lemma PulsesFromStart(p: Pattern)
    requires PlayablePattern(p)
    ensures Pulses(p.sequence) == [Segment(true, p.sequence[0].onMs)] + Rest(p.sequence, 0, 0, true)
  {
    assert p.sequence[0].repeat >= 1;
    RestIsFlat(p.sequence, 0, 0);
  }

  // ---------------------------------------------------------------- what is shown while flags change

  /** One segment, and the index of the pattern it belongs to, or -1 for a gap. */
  datatype Shown = Shown(pat: int, seg: Segment)

  /** The tables a run meets: the patterns of `c` with whatever active flags. */
  predicate Toggled(c: Core, tables: seq<seq<Pattern>>) {
    forall k :: 0 <= k < |tables| ==> SameTable(c.patterns, tables[k])
  }

  predicate InPattern(c: Core) {
    c.phase.On? || c.phase.Off?
  }

  /** One call, with the active flags it finds. */
  function Turn(c: Core, table: seq<Pattern>): (Core, Shown)
    requires Inv(c) && SameTable(c.patterns, table)
  {
    var d := c.(patterns := table);
    SameTableInv(c, table);
    NextInv(d);
    var (e, ms) := Next(d);
    (e, Shown(if InPattern(e) then e.pat else -1, Segment(e.pin, ms)))
  }

  lemma TurnKeeps(c: Core, tables: seq<seq<Pattern>>)
    requires Inv(c) && Toggled(c, tables) && tables != []
    ensures var e := Turn(c, tables[0]).0;
            Inv(e) && e.patterns == tables[0] && Toggled(e, tables[1..])
            && e.interGap == c.interGap && e.frameGap == c.frameGap
  {
    SameTableInv(c, tables[0]);
    NextInv(c.(patterns := tables[0]));
    forall k | 0 <= k < |tables[1..]| ensures SameTable(tables[0], tables[1..][k]) {
      assert SameTable(c.patterns, tables[k + 1]);
    }
  }

  /** Everything shown by one call per table, and the state behind it. */
  function Show(c: Core, tables: seq<seq<Pattern>>): (r: seq<Shown>)
    requires Inv(c) && Toggled(c, tables)
    ensures |r| == |tables|
    decreases |tables|
  {
    if tables == [] then []
    else
      TurnKeeps(c, tables);
      [Turn(c, tables[0]).1] + Show(Turn(c, tables[0]).0, tables[1..])
  }

  function After(c: Core, tables: seq<seq<Pattern>>): Core
    requires Inv(c) && Toggled(c, tables)
    decreases |tables|
  {
    if tables == [] then c
    else
      TurnKeeps(c, tables);
      After(Turn(c, tables[0]).0, tables[1..])
  }

  /** The calls of one frame: it ends with the last one and not before. */
  predicate FrameEndsAt(c: Core, tables: seq<seq<Pattern>>)
    requires Inv(c) && Toggled(c, tables)
    decreases |tables|
  {
    tables != [] &&
    (TurnKeeps(c, tables);
     var e := Turn(c, tables[0]).0;
     if |tables| == 1 then e.phase.FrameGap? else !e.phase.FrameGap? && FrameEndsAt(e, tables[1..]))
  }

  /** The segments shown for pattern `j`, in order. */
  function OfPattern(shown: seq<Shown>, j: int): seq<Segment> {
    if shown == [] then []
    else if shown[0].pat == j then [shown[0].seg] + OfPattern(shown[1..], j)
    else OfPattern(shown[1..], j)
  }

  predicate NoContinuous(ps: seq<Pattern>) {
    forall i :: 0 <= i < |ps| ==> !(ps[i].continuous && ps[i].active)
  }

  /** Inside a frame: a default pattern plays, or the gap before the next one. */
  predicate InFrame(c: Core) {
    (InPattern(c) && 0 <= c.pat < |c.patterns| && !c.patterns[c.pat].continuous) || c.phase.InterGap?
  }

  /** What a frame still owes pattern `j`. */
  function Due(c: Core, j: nat): seq<Segment>
    requires Inv(c) && j < |c.patterns|
  {
    if InPattern(c) && c.pat == j then Rest(c.patterns[j].sequence, c.step, c.pulse, c.phase.On?)
    else if c.pat < j then Pulses(c.patterns[j].sequence)
    else []
  }

  /** The next segment of the pattern a default cursor stands in, if it has one left. */
  lemma ContinuePlays(c: Core)
    requires Inv(c) && InPattern(c) && NoContinuous(c.patterns) && !c.patterns[c.pat].continuous
    ensures Safe(c)
    ensures var sequence := c.patterns[c.pat].sequence;
            var rest := Rest(sequence, c.step, c.pulse, c.phase.On?);
            var (e, ms) := Next(c);
            if rest == [] then
              e.pat == c.pat && !e.pin &&
              if NextDefault(c.patterns, c.pat + 1) >= 0 then e.phase.InterGap? && ms == c.interGap
              else e.phase.FrameGap? && ms == c.frameGap
            else
              InPattern(e) && e.pat == c.pat && e.patterns == c.patterns
              && 0 <= e.step < |sequence|
              && rest == [Segment(e.pin, ms)] + Rest(sequence, e.step, e.pulse, e.phase.On?)
  {
    hide FirstContinuous, NextDefault;
    assert FirstContinuous(c.patterns, 0) == -1 by { NoneContinuous(c.patterns); }
    assert PlayablePattern(c.patterns[c.pat]);
  }

  lemma NoneContinuous(ps: seq<Pattern>)
    requires NoContinuous(ps)
    ensures FirstContinuous(ps, 0) == -1
  {
  }

  /** One call inside a frame pays `j` exactly what it shows of it, and cannot end a frame that owes. */
  lemma FrameTurn(c: Core, j: nat)
    requires Inv(c) && InFrame(c) && NoContinuous(c.patterns)
    requires j < |c.patterns| && !c.patterns[j].continuous && c.patterns[j].active
    ensures Safe(c)
    ensures var (e, ms) := Next(c);
            && Inv(e) && e.patterns == c.patterns
            && (e.phase.FrameGap? || InFrame(e))
            && (e.phase.FrameGap? ==> Due(c, j) == [])
            && (InFrame(e) ==>
                  Due(c, j) == (if InPattern(e) && e.pat == j then [Segment(e.pin, ms)] else []) + Due(e, j))
  {
    hide Rest, Pulses;
    NextInv(c);
    if InPattern(c) {
      ContinuePlays(c);
    } else {
      assert FirstContinuous(c.patterns, 0) == -1 by { NoneContinuous(c.patterns); }
      PulsesFromStart(c.patterns[j]);
    }
  }

  /**
   Fairness.  A default pattern that is active at every call from the start of a frame to its end is
   shown exactly once in that frame, whole and in order, whatever happens to the flags of the other
   default patterns, as long as no continuous pattern is active.
   */
  lemma PlayedExactlyOnce(c: Core, tables: seq<seq<Pattern>>, j: nat)
    requires Inv(c) && (c.phase.Idle? || c.phase.FrameGap?) && Toggled(c, tables) && FrameEndsAt(c, tables)
    requires j < |c.patterns| && !c.patterns[j].continuous
    requires forall k :: 0 <= k < |tables| ==> NoContinuous(tables[k])
    requires forall k :: 0 <= k < |tables| ==> tables[k][j].active
    ensures OfPattern(Show(c, tables), j) == Pulses(c.patterns[j].sequence)
  {
    hide Rest, Pulses, FirstContinuous;
    TurnKeeps(c, tables);
    var d := c.(patterns := tables[0]);
    assert SameTable(c.patterns, tables[0]);
    SameTableInv(c, tables[0]);
    NoneContinuous(tables[0]);
    var e := Turn(c, tables[0]).0;
    assert tables[0][j].active && !tables[0][j].continuous;
    assert e.phase.On? && e.pat <= j && e.step == 0 && e.pulse == 0;
    PulsesFromStart(e.patterns[j]);
    RestOfFrame(e, tables[1..], j);
  }

  lemma {:induction false} RestOfFrame(c: Core, tables: seq<seq<Pattern>>, j: nat)
    requires Inv(c) && InFrame(c) && Toggled(c, tables) && FrameEndsAt(c, tables)
    requires j < |c.patterns| && !c.patterns[j].continuous
    requires forall k :: 0 <= k < |tables| ==> NoContinuous(tables[k])
    requires forall k :: 0 <= k < |tables| ==> tables[k][j].active
    ensures OfPattern(Show(c, tables), j) == Due(c, j)
    decreases |tables|
  {
    hide Rest, Pulses, Next;
    TurnKeeps(c, tables);
    var d := c.(patterns := tables[0]);
    assert SameTable(c.patterns, tables[0]);
    SameTableInv(c, tables[0]);
    assert d.patterns[j].sequence == c.patterns[j].sequence;
    assert Due(d, j) == Due(c, j);
    FrameTurn(d, j);
    var e := Turn(c, tables[0]).0;
    if |tables| == 1 {
      assert tables[1..] == [];
      assert Show(e, tables[1..]) == [];
    } else {
      RestOfFrame(e, tables[1..], j);
    }
  }

  /** A pattern that is inactive at every call is never shown, unless it was already playing. */
  lemma {:induction false} InactiveNeverShown(c: Core, tables: seq<seq<Pattern>>, j: nat)
    requires Inv(c) && Toggled(c, tables) && j < |c.patterns| && !(InPattern(c) && c.pat == j)
    requires forall k :: 0 <= k < |tables| ==> !tables[k][j].active
    ensures OfPattern(Show(c, tables), j) == []
    decreases |tables|
  {
    if tables != [] {
      TurnKeeps(c, tables);
      var e := Turn(c, tables[0]).0;
      assert !tables[0][j].active;
      NotStarted(c.(patterns := tables[0]), j);
      InactiveNeverShown(e, tables[1..], j);
    }
  }

  lemma NotStarted(c: Core, j: nat)
    requires Inv(c) && j < |c.patterns| && !(InPattern(c) && c.pat == j) && !c.patterns[j].active
    ensures Safe(c) && !(InPattern(Next(c).0) && Next(c).0.pat == j)
  {
    InvSafe(c);
  }

  // ---------------------------------------------------------------- every frame ends

  /** Segments the patterns at or behind `from` could take, each with the gap behind it. */
  function Room(ps: seq<Pattern>, from: nat): nat
    decreases |ps| - from
  {
    if from >= |ps| then 0 else |Pulses(ps[from].sequence)| + 1 + Room(ps, from + 1)
  }

  function Measure(c: Core): nat
    requires Inv(c) && InFrame(c)
  {
    if InPattern(c) then
      |Rest(c.patterns[c.pat].sequence, c.step, c.pulse, c.phase.On?)| + 1 + Room(c.patterns, c.pat + 1)
    else Room(c.patterns, c.pat + 1)
  }

  lemma {:induction false} RoomFrom(ps: seq<Pattern>, from: nat, i: nat)
    requires from <= i < |ps|
    ensures Room(ps, from) >= |Pulses(ps[i].sequence)| + 1 + Room(ps, i + 1)
    decreases i - from
  {
    if from < i {
      RoomFrom(ps, from + 1, i);
    }
  }

  lemma {:induction false} SameRoom(a: seq<Pattern>, b: seq<Pattern>, from: nat)
    requires SameTable(a, b)
    ensures Room(a, from) == Room(b, from)
    decreases |a| - from
  {
    if from < |a| {
      assert a[from].sequence == b[from].sequence;
      SameRoom(a, b, from + 1);
    }
  }

  /** Each call inside a frame ends it or comes at least one segment nearer to its end. */
  lemma MeasureFalls(c: Core)
    requires Inv(c) && InFrame(c) && NoContinuous(c.patterns)
    ensures Safe(c) && Inv(Next(c).0)
    ensures var e := Next(c).0; e.phase.FrameGap? || (InFrame(e) && Measure(e) < Measure(c))
  {
    hide Rest, Pulses, Room;
    NextInv(c);
    var e := Next(c).0;
    if InPattern(c) {
      ContinuePlays(c);
    } else {
      assert FirstContinuous(c.patterns, 0) == -1 by { NoneContinuous(c.patterns); }
      var next := NextDefault(c.patterns, c.pat + 1);
      if next >= 0 {
        RoomFrom(c.patterns, c.pat + 1, next);
        PulsesFromStart(c.patterns[next]);
      }
    }
  }

  /** Whatever is toggled meanwhile, a frame ends within the calls its measure gives. */
  lemma {:induction false} FramesEnd(c: Core, tables: seq<seq<Pattern>>)
    requires Inv(c) && InFrame(c) && Toggled(c, tables)
    requires forall k :: 0 <= k < |tables| ==> NoContinuous(tables[k])
    requires |tables| > Measure(c)
    ensures exists n :: 0 < n <= Measure(c) + 1 && EndsWithin(c, tables, n)
    decreases |tables|
  {
    hide Measure, Next;
    TurnKeeps(c, tables);
    var d := c.(patterns := tables[0]);
    assert SameTable(c.patterns, tables[0]);
    SameTableInv(c, tables[0]);
    SameMeasure(c, tables[0]);
    MeasureFalls(d);
    var e := Turn(c, tables[0]).0;
    if e.phase.FrameGap? {
      assert tables[..1] == [tables[0]];
      assert EndsWithin(c, tables, 1);
    } else {
      FramesEnd(e, tables[1..]);
      var n :| 0 < n <= Measure(e) + 1 && EndsWithin(e, tables[1..], n);
      assert tables[..n + 1][1..] == tables[1..][..n];
      assert EndsWithin(c, tables, n + 1);
    }
  }

  predicate EndsWithin(c: Core, tables: seq<seq<Pattern>>, n: nat)
    requires Inv(c) && Toggled(c, tables)
  {
    n <= |tables| && FrameEndsAt(c, tables[..n])
  }

  lemma SameMeasure(c: Core, table: seq<Pattern>)
    requires Inv(c) && InFrame(c) && SameTable(c.patterns, table)
    ensures var d := c.(patterns := table); Inv(d) && InFrame(d) && Measure(d) == Measure(c)
  {
    SameTableInv(c, table);
    SameRoom(c.patterns, table, c.pat + 1);
    if InPattern(c) { assert c.patterns[c.pat].sequence == table[c.pat].sequence; }
  }

  // ---------------------------------------------------------------- the frame as a flat pulse train

  /** The sequences of the active default patterns from `from` on, in the order of the table. */
  function ActiveSequences(ps: seq<Pattern>, from: nat): seq<seq<Step>>
    decreases |ps| - from
  {
    if from >= |ps| then []
    else if !ps[from].continuous && ps[from].active then [ps[from].sequence] + ActiveSequences(ps, from + 1)
    else ActiveSequences(ps, from + 1)
  }

  /** The pulse trains with the short gap between them and the long one at the end. */
  function Frame(sequences: seq<seq<Step>>, interGap: nat, frameGap: nat): seq<Segment>
    decreases |sequences|, 0
  {
    if sequences == [] then [Segment(false, frameGap)]
    else Pulses(sequences[0]) + Behind(sequences[1..], interGap, frameGap)
  }

  function Behind(sequences: seq<seq<Step>>, interGap: nat, frameGap: nat): seq<Segment>
    decreases |sequences|, 1
  {
    if sequences == [] then [Segment(false, frameGap)]
    else [Segment(false, interGap)] + Frame(sequences, interGap, frameGap)
  }

  lemma NextAt(ps: seq<Pattern>, from: nat)
    requires from < |ps|
    ensures var skipped := ps[from].continuous || !ps[from].active;
            && NextDefault(ps, from) == (if skipped then NextDefault(ps, from + 1) else from)
            && ActiveSequences(ps, from) == (if skipped then [] else [ps[from].sequence]) +
               ActiveSequences(ps, from + 1)
  {
  }

  lemma {:induction false} NextOfActive(ps: seq<Pattern>, from: nat)
    ensures var next := NextDefault(ps, from);
            ActiveSequences(ps, from) == if next < 0 then [] else [ps[next].sequence] + ActiveSequences(ps, next + 1)
    decreases |ps| - from
  {
    if from < |ps| {
      NextAt(ps, from);
      hide NextDefault, ActiveSequences;
      if ps[from].continuous || !ps[from].active { NextOfActive(ps, from + 1); }
    } else {
      assert NextDefault(ps, from) < 0;
    }
  }

  function Segments(shown: seq<Shown>): (r: seq<Segment>)
    ensures |r| == |shown|
  {
    if shown == [] then [] else [shown[0].seg] + Segments(shown[1..])
  }

  /** What a frame has still to show while the flags stay as they are. */
  function Remaining(c: Core): seq<Segment>
    requires Inv(c) && InFrame(c)
  {
    var behind := ActiveSequences(c.patterns, c.pat + 1);
    if InPattern(c) then
      Rest(c.patterns[c.pat].sequence, c.step, c.pulse, c.phase.On?) + Behind(behind, c.interGap, c.frameGap)
    else Frame(behind, c.interGap, c.frameGap)
  }

  lemma RemainingTurn(c: Core)
    requires Inv(c) && InFrame(c) && NoContinuous(c.patterns)
    ensures Safe(c) && Inv(Next(c).0) && Next(c).0.patterns == c.patterns
    ensures var (e, ms) := Next(c);
            && (e.phase.FrameGap? || InFrame(e))
            && Remaining(c) == [Segment(e.pin, ms)] + if e.phase.FrameGap? then [] else Remaining(e)
  {
    NextInv(c);
    if InPattern(c) { PatternTurn(c); } else { GapTurn(c); }
    hide Inv, Next, Remaining;
  }

  lemma PatternTurn(c: Core)
    requires Inv(c) && InFrame(c) && InPattern(c) && NoContinuous(c.patterns) && Safe(c) && Inv(Next(c).0)
    requires Next(c).0.interGap == c.interGap && Next(c).0.frameGap == c.frameGap && Next(c).0.patterns == c.patterns
    ensures var (e, ms) := Next(c);
            && (e.phase.FrameGap? || InFrame(e))
            && Remaining(c) == [Segment(e.pin, ms)] + if e.phase.FrameGap? then [] else Remaining(e)
  {
    hide Rest, Pulses, ActiveSequences, Next, NextDefault;
    NextOfActive(c.patterns, c.pat + 1);
    ContinuePlays(c);
  }

  lemma GapTurn(c: Core)
    requires Inv(c) && InFrame(c) && !InPattern(c) && NoContinuous(c.patterns) && Safe(c) && Inv(Next(c).0)
    ensures var (e, ms) := Next(c);
            && (e.phase.FrameGap? || InFrame(e))
            && Remaining(c) == [Segment(e.pin, ms)] + if e.phase.FrameGap? then [] else Remaining(e)
  {
    NextOfActive(c.patterns, c.pat + 1);
    NextOfGap(c);
    hide Next, NextDefault, Inv, ActiveSequences;
    if NextDefault(c.patterns, c.pat + 1) >= 0 { GapStarts(c, NextDefault(c.patterns, c.pat + 1)); }
  }

  lemma GapStarts(c: Core, next: nat)
    requires Inv(c) && InFrame(c) && !InPattern(c) && next < |c.patterns|
    requires !c.patterns[next].continuous && Inv(Start(c, next).0)
    requires ActiveSequences(c.patterns, c.pat + 1) ==
             [c.patterns[next].sequence] + ActiveSequences(c.patterns, next + 1)
    ensures var (e, ms) := Start(c, next);
            InFrame(e) && InPattern(e) && Remaining(c) == [Segment(e.pin, ms)] + Remaining(e)
  {
    hide Rest, Pulses, ActiveSequences, Frame, Behind;
    var p, behind := c.patterns[next], ActiveSequences(c.patterns, next + 1);
    PulsesFromStart(p);
    FrameFirst(p.sequence, behind, c.interGap, c.frameGap);
    Assoc([Segment(true, p.sequence[0].onMs)], Rest(p.sequence, 0, 0, true), Behind(behind, c.interGap, c.frameGap));
  }

  lemma NextOfGap(c: Core)
    requires Inv(c) && InFrame(c) && !InPattern(c) && NoContinuous(c.patterns) && Safe(c)
    ensures var next := NextDefault(c.patterns, c.pat + 1);
            Next(c) == if next < 0 then (c.(phase := FrameGap, pin := false), c.frameGap) else Start(c, next)
  {
    hide NextDefault, FirstContinuous, NoContinuous, Start;
    NoneContinuous(c.patterns);
  }

  lemma FrameFirst(s: seq<Step>, behind: seq<seq<Step>>, interGap: nat, frameGap: nat)
    ensures Frame([s] + behind, interGap, frameGap) == Pulses(s) + Behind(behind, interGap, frameGap)
  {
    hide Pulses, Behind;
    assert ([s] + behind)[1..] == behind;
  }

  /** The same table at every one of `n` calls. */
  function Constant(ps: seq<Pattern>, n: nat): (r: seq<seq<Pattern>>)
    ensures |r| == n && forall k :: 0 <= k < n ==> r[k] == ps
  {
    if n == 0 then [] else [ps] + Constant(ps, n - 1)
  }

  /** With a fixed table a run is its first call and the run from there. */
  lemma ShowOne(c: Core, n: nat)
    requires Inv(c) && n > 0
    ensures var tables := Constant(c.patterns, n);
            && Toggled(c, tables) && tables[1..] == Constant(c.patterns, n - 1)
            && Safe(c) && Inv(Next(c).0) && Next(c).0.patterns == c.patterns
    ensures var (e, ms) := Next(c); var rest := Constant(c.patterns, n - 1);
            && Toggled(e, rest)
            && Segments(Show(c, Constant(c.patterns, n))) == [Segment(e.pin, ms)] + Segments(Show(e, rest))
  {
    NextInv(c);
    hide Inv, Next, Safe;
    var tables := Constant(c.patterns, n);
    assert tables[1..] == Constant(c.patterns, n - 1);
    assert c.(patterns := c.patterns) == c;
    var (e, ms) := Next(c);
    TurnKeeps(c, tables);
    assert Turn(c, tables[0]) == (e, Shown(if InPattern(e) then e.pat else -1, Segment(e.pin, ms)));
    var shown := Show(e, tables[1..]);
    assert Show(c, tables) == [Turn(c, tables[0]).1] + shown;
    assert ([Turn(c, tables[0]).1] + shown)[1..] == shown;
  }

  lemma {:induction false} RemainingShown(c: Core, n: nat)
    requires Inv(c) && InFrame(c) && NoContinuous(c.patterns) && n == |Remaining(c)|
    ensures Toggled(c, Constant(c.patterns, n)) && FrameEndsAt(c, Constant(c.patterns, n))
    ensures Segments(Show(c, Constant(c.patterns, n))) == Remaining(c)
    decreases n
  {
    hide Remaining, Next;
    var tables := Constant(c.patterns, n);
    RemainingTurn(c);
    ShowOne(c, n);
    assert c.(patterns := c.patterns) == c;
    var (e, ms) := Next(c);
    assert Turn(c, tables[0]).0 == e;
    if e.phase.FrameGap? {
      assert n == 1 && tables[1..] == [];
      assert Show(e, tables[1..]) == [];
    } else {
      RemainingShown(e, n - 1);
      assert |Remaining(e)| > 0 by { RemainingTurn(e); }
    }
  }

  /**
   Refinement.  With a fixed set of active default patterns and no active continuous one, the calls
   from the start of a frame show exactly the flat frame, and the frame ends exactly with the last of
   them.
   */
  lemma FrameIsFlat(c: Core)
    requires Inv(c) && (c.phase.Idle? || c.phase.FrameGap?) && NoContinuous(c.patterns)
    requires ActiveSequences(c.patterns, 0) != []
    ensures var flat := Frame(ActiveSequences(c.patterns, 0), c.interGap, c.frameGap);
            var tables := Constant(c.patterns, |flat|);
            Toggled(c, tables) && FrameEndsAt(c, tables) && Segments(Show(c, tables)) == flat
  {
    FrameStarts(c);
    hide Remaining, Next, Frame, ActiveSequences, Inv, Safe, Segments;
    var flat := Frame(ActiveSequences(c.patterns, 0), c.interGap, c.frameGap);
    var (e, ms) := Next(c);
    RemainingShown(e, |flat| - 1);
    ShowOne(c, |flat|);
    assert c.(patterns := c.patterns) == c;
    assert Turn(c, Constant(c.patterns, |flat|)[0]).0 == e;
  }

  /** The first call of a frame shows the first segment of the flat frame and leaves the others. */
  lemma FrameStarts(c: Core)
    requires Inv(c) && (c.phase.Idle? || c.phase.FrameGap?) && NoContinuous(c.patterns)
    requires ActiveSequences(c.patterns, 0) != []
    ensures Safe(c) && Inv(Next(c).0) && Next(c).0.patterns == c.patterns && InFrame(Next(c).0)
    ensures var (e, ms) := Next(c);
            && |Remaining(e)| > 0 && !e.phase.FrameGap?
            && Frame(ActiveSequences(c.patterns, 0), c.interGap, c.frameGap) == [Segment(e.pin, ms)] + Remaining(e)
  {
    hide Rest, Pulses, ActiveSequences;
    NextOfActive(c.patterns, 0);
    NoneContinuous(c.patterns);
    NextInv(c);
    var (e, ms) := Next(c);
    var first := NextDefault(c.patterns, 0);
    PulsesFromStart(c.patterns[first]);
    var behind := ActiveSequences(c.patterns, first + 1);
    assert ([c.patterns[first].sequence] + behind)[1..] == behind;
    RemainingTurn(e);
    hide Next, NextDefault;
  }

  /** With nothing active the pin stays low and the machine polls. */
  lemma NothingActive(c: Core)
    requires Inv(c) && (c.phase.Idle? || c.phase.FrameGap?) && NoContinuous(c.patterns)
    requires ActiveSequences(c.patterns, 0) == []
    ensures Safe(c) && Next(c) == (c.(phase := Idle, pin := false), IDLE_MS)
  {
    NextOfActive(c.patterns, 0);
    NoneContinuous(c.patterns);
    InvSafe(c);
  }

  // ---------------------------------------------------------------- continuous patterns

  /** A playing continuous pattern: the next segment, and the first one again behind the last. */
  lemma CycleTurn(c: Core, cont: nat)
    requires Inv(c) && FirstContinuous(c.patterns, 0) == cont && InPattern(c) && c.pat == cont
    ensures Safe(c) && Inv(Next(c).0)
    ensures var sequence := c.patterns[cont].sequence;
            var rest := Rest(sequence, c.step, c.pulse, c.phase.On?);
            var (e, ms) := Next(c);
            && e.patterns == c.patterns && InPattern(e) && e.pat == cont
            && (rest == [] ==> (e, ms) == Start(c, cont))
            && (rest != [] ==> rest == [Segment(e.pin, ms)] + Rest(sequence, e.step, e.pulse, e.phase.On?))
  {
    hide FirstContinuous, NextDefault;
    NextInv(c);
    assert PlayablePattern(c.patterns[cont]);
    var sequence := c.patterns[cont].sequence;
    if c.phase.Off? && c.pulse + 1 >= sequence[c.step].repeat {
      WrapAround(c.step, |sequence|);
    }
  }

  lemma WrapAround(step: nat, n: nat)
    requires step < n
    ensures (step + 1) % n == if step + 1 < n then step + 1 else 0
  {
  }

  /** The pattern is the first active continuous one at every call. */
  predicate Leads(tables: seq<seq<Pattern>>, cont: nat) {
    forall k :: 0 <= k < |tables| ==> FirstContinuous(tables[k], 0) == cont
  }

  /** `n` segments: what is left of a round, and then round after round. */
  function Cycle(rest: seq<Segment>, round: seq<Segment>, n: nat): (r: seq<Segment>)
    requires round != []
    ensures |r| == n
    decreases n
  {
    if n == 0 then []
    else if rest == [] then [round[0]] + Cycle(round[1..], round, n - 1)
    else [rest[0]] + Cycle(rest[1..], round, n - 1)
  }

  lemma CycleStarts(first: Segment, left: seq<Segment>, round: seq<Segment>, n: nat)
    requires round == [first] + left && n > 0
    ensures Cycle([], round, n) == [first] + Cycle(left, round, n - 1)
  {
    assert round[1..] == left;
  }

  lemma {:induction false} CycleAt(rest: seq<Segment>, round: seq<Segment>, n: nat, i: nat)
    requires round != [] && i < n
    ensures Cycle(rest, round, n)[i] == if i < |rest| then rest[i] else round[(i - |rest|) % |round|]
    decreases n
  {
    if i == 0 { AroundZero(|round|); }
    else if rest == [] {
      CycleAt(round[1..], round, n - 1, i - 1);
      if i < |round| { Within(i, |round|); } else { Around(i, |round|); }
    } else {
      CycleAt(rest[1..], round, n - 1, i - 1);
    }
  }

  lemma AroundZero(n: nat)
    requires n > 0
    ensures 0 % n == 0
  {
  }

  lemma Within(i: nat, n: nat)
    requires i < n
    ensures i % n == i
  {
  }

  lemma Around(i: nat, n: nat)
    requires 0 < n <= i
    ensures i % n == (i - n) % n
  {
    var q, r := (i - n) / n, (i - n) % n;
    assert (q + 1) * n + r == i;
    OneRemainder(i / n, i % n, q + 1, r, n);
  }

  lemma OneRemainder(p: int, a: nat, q: int, b: nat, n: nat)
    requires p * n + a == q * n + b && a < n && b < n
    ensures a == b
  {
    if p > q { Further(q, p, n); } else if p < q { Further(p, q, n); }
  }

  lemma {:induction false} Further(q: int, p: int, n: nat)
    requires q < p
    ensures q * n + n <= p * n
    decreases p - q
  {
    assert (q + 1) * n == q * n + n;
    if q + 1 < p { Further(q + 1, p, n); }
  }

  /** One call of a playing continuous pattern, with the flags it finds. */
  lemma LedTurn(c: Core, cont: nat, tables: seq<seq<Pattern>>)
    requires Inv(c) && InPattern(c) && c.pat == cont && Toggled(c, tables) && tables != [] && Leads(tables, cont)
    ensures cont < |c.patterns| && Pulses(c.patterns[cont].sequence) != []
    ensures var (e, shown) := Turn(c, tables[0]); var sequence := c.patterns[cont].sequence;
            var rest := Rest(sequence, c.step, c.pulse, c.phase.On?); var pulses := Pulses(sequence);
            && Inv(e) && InPattern(e) && e.pat == cont && Toggled(e, tables[1..]) && shown.pat == cont
            && e.patterns[cont].sequence == sequence
            && var left := Rest(sequence, e.step, e.pulse, e.phase.On?);
            if rest == [] then pulses == [shown.seg] + left else rest == [shown.seg] + left
  {
    hide Rest, Pulses, Start;
    var d := c.(patterns := tables[0]);
    assert SameTable(c.patterns, tables[0]);
    SameTableInv(c, tables[0]);
    TurnKeeps(c, tables);
    CycleTurn(d, cont);
    StartShows(d, cont);
    hide Next, FirstContinuous;
  }

  /**
   A continuous pattern that plays, and is the first active one at every call, shows what is left of
   its pulse train and then the train over and over, whatever is toggled besides.
   */
  lemma {:induction false} CycleShown(c: Core, cont: nat, tables: seq<seq<Pattern>>)
    requires Inv(c) && InPattern(c) && c.pat == cont && Toggled(c, tables) && Leads(tables, cont)
    ensures var sequence := c.patterns[cont].sequence; var pulses := Pulses(sequence);
            pulses != [] && Segments(Show(c, tables)) ==
                              Cycle(Rest(sequence, c.step, c.pulse, c.phase.On?), pulses, |tables|)
    decreases |tables|
  {
    InvPlayable(c, cont);
    PulsesFromStart(c.patterns[cont]);
    if tables != [] {
      LedTurn(c, cont, tables);
      assert SameTable(c.patterns, tables[0]);
      hide Rest, Pulses, Inv, InPattern, Turn, FirstContinuous, Toggled;
      var (e, shown) := Turn(c, tables[0]);
      CycleShown(e, cont, tables[1..]);
      ShowFirst(c, tables);
    }
  }

  /** A run is its first call and the run from there. */
  lemma ShowFirst(c: Core, tables: seq<seq<Pattern>>)
    requires Inv(c) && Toggled(c, tables) && tables != []
    requires var e := Turn(c, tables[0]).0; Inv(e) && Toggled(e, tables[1..])
    ensures var (e, shown) := Turn(c, tables[0]);
            Segments(Show(c, tables)) == [shown.seg] + Segments(Show(e, tables[1..]))
  {
    assert SameTable(c.patterns, tables[0]);
    hide Inv, Turn, Toggled;
    var (e, shown) := Turn(c, tables[0]);
    var rest := Show(e, tables[1..]);
    assert Show(c, tables) == [shown] + rest;
    assert ([shown] + rest)[1..] == rest;
  }

  lemma InvPlayable(c: Core, cont: nat)
    requires Inv(c) && cont < |c.patterns|
    ensures PlayablePattern(c.patterns[cont])
  {
  }

  /** A start shows the first pulse of the train and leaves the others. */
  lemma StartShows(c: Core, cont: nat)
    requires Inv(c) && cont < |c.patterns|
    ensures var (e, ms) := Start(c, cont); var sequence := c.patterns[cont].sequence;
            && e.patterns == c.patterns && InPattern(e) && e.pat == cont
            && Pulses(sequence) == [Segment(e.pin, ms)] + Rest(sequence, e.step, e.pulse, e.phase.On?)
  {
    hide Rest, Pulses;
    InvPlayable(c, cont);
    PulsesFromStart(c.patterns[cont]);
  }

  /** Another continuous pattern, or none, was playing: this one starts. */
  lemma TakesOver(c: Core, cont: nat)
    requires Inv(c) && FirstContinuous(c.patterns, 0) == cont && (!InPattern(c) || c.pat != cont)
    ensures Safe(c) && cont < |c.patterns| && Inv(Next(c).0)
    ensures var (e, ms) := Next(c); var sequence := c.patterns[cont].sequence;
            && e.patterns == c.patterns && InPattern(e) && e.pat == cont
            && Pulses(sequence) == [Segment(e.pin, ms)] + Rest(sequence, e.step, e.pulse, e.phase.On?)
  {
    NextInv(c);
    StartShows(c, cont);
    hide Rest, Pulses;
  }

  lemma FirstTurn(c: Core, cont: nat, tables: seq<seq<Pattern>>)
    requires Inv(c) && Toggled(c, tables) && Leads(tables, cont) && (!InPattern(c) || c.pat != cont)
    requires tables != []
    ensures cont < |c.patterns|
    ensures var (e, shown) := Turn(c, tables[0]); var sequence := c.patterns[cont].sequence;
            && Inv(e) && InPattern(e) && e.pat == cont && Toggled(e, tables[1..]) &&
               e.patterns[cont].sequence == sequence
            && Pulses(sequence) == [shown.seg] + Rest(sequence, e.step, e.pulse, e.phase.On?)
  {
    hide Rest, Pulses, Start;
    var d := c.(patterns := tables[0]);
    assert SameTable(c.patterns, tables[0]);
    SameTableInv(c, tables[0]);
    TurnKeeps(c, tables);
    TakesOver(d, cont);
    hide Next, FirstContinuous;
  }

  /**
   While a continuous pattern stays the first active one, taking it over from anything else shows its
   pulse train from the first step on, over and over, whatever is toggled besides: the `i`-th call
   shows segment `i` of the train, counted around.
   */
  lemma ContinuousIsCyclic(c: Core, cont: nat, tables: seq<seq<Pattern>>)
    requires Inv(c) && Toggled(c, tables) && Leads(tables, cont) && (!InPattern(c) || c.pat != cont)
    requires tables != []
    ensures cont < |c.patterns|
    ensures var pulses, shown := Pulses(c.patterns[cont].sequence), Segments(Show(c, tables));
            pulses != [] && forall i :: 0 <= i < |tables| ==> shown[i] == pulses[i % |pulses|]
  {
    FirstTurn(c, cont, tables);
    assert SameTable(c.patterns, tables[0]);
    hide Rest, Pulses, Turn, Inv, InPattern, FirstContinuous, Toggled, Segments, Show, Cycle;
    var (e, first) := Turn(c, tables[0]);
    var sequence := c.patterns[cont].sequence;
    var pulses, left := Pulses(sequence), Rest(sequence, e.step, e.pulse, e.phase.On?);
    CycleShown(e, cont, tables[1..]);
    ShowFirst(c, tables);
    var n := |tables|;
    CycleStarts(first.seg, left, pulses, n);
    forall i | 0 <= i < n ensures Segments(Show(c, tables))[i] == pulses[i % |pulses|] {
      CycleAt([], pulses, n, i);
    }
  }
}
