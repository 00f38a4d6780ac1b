/**
 The LED sequencer: a cursor machine over patterns of on/off pulses.  Default patterns are played one
 after the other in frames; an active continuous pattern overrides them.
 */
module LedSequencer {

  datatype Step = Step(onMs: nat, offMs: nat, repeat: nat)

  datatype Pattern = Pattern(id: string, sequence: seq<Step>, continuous: bool, active: bool)

  datatype Phase = Idle | On | Off | InterGap | FrameGap

  /** The sequencer without its clock: configuration, cursors and the level of the pin. */
  datatype Core = Core(patterns: seq<Pattern>, interGap: nat, frameGap: nat,
                       phase: Phase, pat: int, step: int, pulse: nat, pin: bool)

  /** The delay an idle sequencer polls with. */
  const IDLE_MS: nat := 50

  /** 32-bit milliseconds. */
  const CLOCK: nat := 0x1_0000_0000

  // ---------------------------------------------------------------- searches

  /** The lowest-index active continuous pattern, or -1. */
  function FirstContinuous(ps: seq<Pattern>, from: nat): (r: int)
    requires from <= |ps|
    ensures r == -1 || (from <= r < |ps| && ps[r].continuous && ps[r].active)
    ensures forall i :: from <= i < (if r == -1 then |ps| else r) ==> !(ps[i].continuous && ps[i].active)
    decreases |ps| - from
  {
    if from == |ps| then -1
    else if ps[from].continuous && ps[from].active then from
    else FirstContinuous(ps, from + 1)
  }

  /** The first active default pattern at or behind `from`, or -1. */
  function NextDefault(ps: seq<Pattern>, from: nat): (r: int)
    ensures r == -1 || (from <= r < |ps| && !ps[r].continuous && ps[r].active)
    ensures forall i :: from <= i < (if r == -1 then |ps| else r) ==> ps[i].continuous || !ps[i].active
    decreases |ps| - from
  {
    if from >= |ps| then -1
    else if !ps[from].continuous && ps[from].active then from
    else NextDefault(ps, from + 1)
  }

  function SetActive(ps: seq<Pattern>, id: string, active: bool): (r: seq<Pattern>)
    ensures |r| == |ps|
  {
    if ps == [] then []
    else if ps[0].id == id then [ps[0].(active := active)] + ps[1..]
    else [ps[0]] + SetActive(ps[1..], id, active)
  }

  lemma {:induction false} SetActiveAt(ps: seq<Pattern>, id: string, active: bool, i: nat)
    requires i <= |ps| && forall j :: 0 <= j < i ==> ps[j].id != id
    requires i < |ps| ==> ps[i].id == id
    ensures SetActive(ps, id, active) == if i < |ps| then ps[i := ps[i].(active := active)] else ps
  {
    if ps != [] { SetActiveFirst(ps, id, active); }
    if i > 0 {
      assert forall j :: 0 <= j < i - 1 ==> ps[1..][j] == ps[j + 1];
      SetActiveAt(ps[1..], id, active, i - 1);
      hide SetActive;
      ConsIs(ps);
      if i < |ps| { ConsReplaced(ps, i, ps[i].(active := active)); }
    }
  }

  lemma ConsIs<T>(l: seq<T>)
    requires l != []
    ensures [l[0]] + l[1..] == l
  {
  }

  lemma ConsReplaced<T>(l: seq<T>, i: nat, x: T)
    requires 0 < i < |l|
    ensures [l[0]] + l[1..][i - 1 := x] == l[i := x]
  {
  }

  lemma SetActiveFirst(ps: seq<Pattern>, id: string, active: bool)
    requires ps != []
    ensures SetActive(ps, id, active) ==
            if ps[0].id == id then ps[0 := ps[0].(active := active)] else [ps[0]] + SetActive(ps[1..], id, active)
  {
  }

  function ClearActive(ps: seq<Pattern>): (r: seq<Pattern>)
    ensures |r| == |ps|
    ensures forall i :: 0 <= i < |ps| ==> r[i] == ps[i].(active := false)
  {
    if ps == [] then [] else [ps[0].(active := false)] + ClearActive(ps[1..])
  }

  // ---------------------------------------------------------------- one call of advance_

  /** What the code dereferences: started patterns have a first step, a playing cursor is in range. */
  predicate Safe(c: Core) {
    && (forall i :: 0 <= i < |c.patterns| && c.patterns[i].active ==> c.patterns[i].sequence != [])
    && (c.phase.On? || c.phase.Off? ==>
          0 <= c.pat < |c.patterns| && 0 <= c.step
          && (c.patterns[c.pat].sequence != [] ==> c.step < |c.patterns[c.pat].sequence|))
    && (c.phase.InterGap? ==> 0 <= c.pat)
    && c.pulse < 0x100
  }

  /** Start pattern `i` from its first pulse. */
  function Start(c: Core, i: nat): (Core, nat)
    requires i < |c.patterns| && c.patterns[i].sequence != []
  {
    (c.(pat := i, step := 0, pulse := 0, phase := On, pin := true), c.patterns[i].sequence[0].onMs)
  }

  /** The next pulse of the pattern being played, or nothing behind its last one. */
  function Continue(c: Core, cyclic: bool): (Core, int)
    requires Safe(c) && (c.phase.On? || c.phase.Off?) && c.patterns[c.pat].sequence != []
  {
    var sequence := c.patterns[c.pat].sequence;
    var pulse := (c.pulse + 1) % 0x100;
    if c.phase.On? then
      var ms: int := sequence[c.step].offMs;
      (c.(phase := Off, pin := false), ms)
    else if pulse < sequence[c.step].repeat then
      var ms: int := sequence[c.step].onMs;
      (c.(pulse := pulse, phase := On, pin := true), ms)
    else
      var step := if cyclic then (c.step + 1) % |sequence| else c.step + 1;
      if step < |sequence| then
        var ms: int := sequence[step].onMs;
        (c.(step := step, pulse := 0, phase := On, pin := true), ms)
      else
        (c.(step := step, pulse := 0), -1)
  }

  /** The gap behind a pattern: short when another pattern follows in this frame. */
  function Gap(c: Core): (Core, nat)
    requires 0 <= c.pat
  {
    if NextDefault(c.patterns, c.pat + 1) >= 0 then (c.(phase := InterGap, pin := false), c.interGap)
    else (c.(phase := FrameGap, pin := false), c.frameGap)
  }

  function Next(c: Core): (r: (Core, nat))
    requires Safe(c)
  {
    var cont := FirstContinuous(c.patterns, 0);
    if cont >= 0 then
      if (!c.phase.On? && !c.phase.Off?) || c.pat != cont then Start(c, cont)
      else
        var (d, ms) := Continue(c, true);
        (d, if ms < 0 then 0 else ms)
    else
      var c := if (c.phase.On? || c.phase.Off?) && c.patterns[c.pat].continuous
               then c.(phase := Idle, pin := false) else c;
      match c.phase
      case Idle =>
        var first := NextDefault(c.patterns, 0);
        if first < 0 then (c.(pin := false), IDLE_MS) else Start(c, first)
      case FrameGap =>
        var first := NextDefault(c.patterns, 0);
        if first < 0 then (c.(phase := Idle, pin := false), IDLE_MS) else Start(c, first)
      case InterGap =>
        var next := NextDefault(c.patterns, c.pat + 1);
        if next < 0 then (c.(phase := FrameGap, pin := false), c.frameGap) else Start(c, next)
      case _ =>
        if c.patterns[c.pat].sequence == [] then Gap(c)
        else
          var (d, ms) := Continue(c, false);
          if ms >= 0 then (d, ms) else Gap(d)
  }

  // ---------------------------------------------------------------- the component

  class Sequencer {
    var interGap: nat
    var frameGap: nat
    var patterns: seq<Pattern>
    var phase: Phase
    var pat: int
    var step: int
    var pulse: nat
    var deadline: nat
    var pin: bool

    constructor ()
      ensures State() == Core([], 1500, 2000, Idle, 0, 0, 0, false) && deadline == 0
    {
      interGap, frameGap, patterns := 1500, 2000, [];
      phase, pat, step, pulse := Idle, 0, 0, 0;
      deadline, pin := 0, false;
    }

    function State(): Core
      reads this
    {
      Core(patterns, interGap, frameGap, phase, pat, step, pulse, pin)
    }

    method Setup(now: nat)
      modifies this
      ensures State() == old(State()).(pin := false) && deadline == (now + IDLE_MS) % CLOCK
    {
      pin := false;
      deadline := (now + IDLE_MS) % CLOCK;
    }

    method BeginPattern(id: string, continuous: bool)
      modifies this`patterns
      ensures patterns == old(patterns) + [Pattern(id, [], continuous, false)]
    {
      patterns := patterns + [Pattern(id, [], continuous, false)];
    }

    method AddStep(onMs: nat, offMs: nat, repeat: nat)
      modifies this`patterns
      ensures old(patterns) == [] ==> patterns == []
      ensures old(patterns) != [] ==>
                var n := |old(patterns)| - 1;
                var p := old(patterns)[n];
                patterns == old(patterns)[n := p.(sequence := p.sequence + [Step(onMs, offMs, repeat)])]
    {
      if patterns == [] {
        return;
      }
      var n := |patterns| - 1;
      patterns := patterns[n := patterns[n].(sequence := patterns[n].sequence + [Step(onMs, offMs, repeat)])];
    }

    /** An unknown id changes nothing; of two patterns with the same id the first is meant. */
    method SetPattern(id: string, active: bool)
      modifies this`patterns
      ensures patterns == SetActive(old(patterns), id, active)
    {
      var i := 0;
      while i < |patterns|
        invariant i <= |patterns| && patterns == old(patterns)
        invariant forall j :: 0 <= j < i ==> patterns[j].id != id
      {
        if patterns[i].id == id {
          SetActiveAt(patterns, id, active, i);
          patterns := patterns[i := patterns[i].(active := active)];
          return;
        }
        i := i + 1;
      }
      SetActiveAt(patterns, id, active, i);
    }

    method ClearAll()
      modifies this`patterns
      ensures patterns == ClearActive(old(patterns))
    {
      ghost var before := patterns;
      var i := 0;
      while i < |patterns|
        invariant i <= |patterns| == |before|
        invariant forall j :: 0 <= j < |before| ==>
                  patterns[j] == if j < i then before[j].(active := false) else before[j]
      {
        patterns := patterns[i := patterns[i].(active := false)];
        i := i + 1;
      }
    }

    method FindContinuousActive() returns (r: int)
      ensures r == FirstContinuous(patterns, 0)
    {
      var i := 0;
      while i < |patterns|
        invariant i <= |patterns| && FirstContinuous(patterns, 0) == FirstContinuous(patterns, i)
      {
        if patterns[i].continuous && patterns[i].active {
          return i;
        }
        i := i + 1;
      }
      return -1;
    }

    method FindNextActiveDefault(from: nat) returns (r: int)
      ensures r == NextDefault(patterns, from)
    {
      var i := from;
      while i < |patterns|
        invariant from <= i && NextDefault(patterns, from) == NextDefault(patterns, i)
      {
        if !patterns[i].continuous && patterns[i].active {
          return i;
        }
        i := i + 1;
      }
      return -1;
    }

    /** `loop`: nothing happens before the deadline. */
    method Loop(now: nat)
      requires Safe(State())
      modifies this
      ensures now < old(deadline) ==> State() == old(State()) && deadline == old(deadline)
      ensures now >= old(deadline) ==> var (c, ms) := Next(old(State())); State() == c && deadline == (now + ms) % CLOCK
    {
      if now < deadline {
        return;
      }
      Advance(now);
    }

    method Begin(i: nat, now: nat)
      requires i < |patterns| && patterns[i].sequence != []
      modifies this
      ensures var (c, ms) := Start(old(State()), i); State() == c && deadline == (now + ms) % CLOCK
    {
      pat, step, pulse, phase := i, 0, 0, On;
      pin := true;
      deadline := (now + patterns[pat].sequence[0].onMs) % CLOCK;
    }

    /** The gap behind a pattern, and the end of the frame. */
    method EnterGap(now: nat)
      requires 0 <= pat
      modifies this
      ensures var (c, ms) := Gap(old(State())); State() == c && deadline == (now + ms) % CLOCK
    {
      var next := FindNextActiveDefault(pat + 1);
      pin := false;
      if next >= 0 {
        phase := InterGap;
        deadline := (now + interGap) % CLOCK;
      } else {
        phase := FrameGap;
        deadline := (now + frameGap) % CLOCK;
      }
    }

    method AdvanceContinuous(cont: nat, now: nat)
      requires Safe(State()) && cont == FirstContinuous(patterns, 0)
      modifies this
      ensures var (c, ms) := Next(old(State())); State() == c && deadline == (now + ms) % CLOCK
    {
      if (!phase.On? && !phase.Off?) || pat != cont {
        Begin(cont, now);
        return;
      }
      var sequence := patterns[cont].sequence;
      if phase.On? {
        phase, pin := Off, false;
        deadline := (now + sequence[step].offMs) % CLOCK;
        return;
      }
      pulse := (pulse + 1) % 0x100;
      if pulse < sequence[step].repeat {
        phase, pin := On, true;
        deadline := (now + sequence[step].onMs) % CLOCK;
      } else {
        step := (step + 1) % |sequence|;
        pulse := 0;
        phase, pin := On, true;
        deadline := (now + sequence[step].onMs) % CLOCK;
      }
    }

    /** The on and off phases of a default pattern. */
    method AdvancePattern(now: nat)
      requires Safe(State()) && FirstContinuous(patterns, 0) == -1
      requires (phase.On? || phase.Off?) && !patterns[pat].continuous
      modifies this
      ensures var (c, ms) := Next(old(State())); State() == c && deadline == (now + ms) % CLOCK
    {
      hide FirstContinuous, NextDefault;
      var sequence := patterns[pat].sequence;
      if sequence == [] {
        EnterGap(now);
        return;
      }
      if phase.On? {
        phase, pin := Off, false;
        deadline := (now + sequence[step].offMs) % CLOCK;
        return;
      }
      pulse := (pulse + 1) % 0x100;
      if pulse < sequence[step].repeat {
        phase, pin := On, true;
        deadline := (now + sequence[step].onMs) % CLOCK;
        return;
      }
      step := step + 1;
      pulse := 0;
      if step < |sequence| {
        phase, pin := On, true;
        deadline := (now + sequence[step].onMs) % CLOCK;
        return;
      }
      EnterGap(now);
    }

    method AdvanceDefault(now: nat)
      requires Safe(State()) && FirstContinuous(patterns, 0) == -1
      modifies this
      ensures var (c, ms) := Next(old(State())); State() == c && deadline == (now + ms) % CLOCK
    {
      hide FirstContinuous, NextDefault;
      if (phase.On? || phase.Off?) && patterns[pat].continuous {
        phase, pin := Idle, false;
      }
      if phase.Idle? || phase.FrameGap? {
        var first := FindNextActiveDefault(0);
        if first < 0 {
          phase, pin := Idle, false;
          deadline := (now + IDLE_MS) % CLOCK;
          return;
        }
        Begin(first, now);
        return;
      }
      if phase.InterGap? {
        var next := FindNextActiveDefault(pat + 1);
        if next < 0 {
          phase, pin := FrameGap, false;
          deadline := (now + frameGap) % CLOCK;
          return;
        }
        Begin(next, now);
        return;
      }
      AdvancePattern(now);
    }

    /** `advance_` */
    method Advance(now: nat)
      requires Safe(State())
      modifies this
      ensures var (c, ms) := Next(old(State())); State() == c && deadline == (now + ms) % CLOCK
    {
      var cont := FindContinuousActive();
      if cont >= 0 {
        AdvanceContinuous(cont, now);
      } else {
        AdvanceDefault(now);
      }
    }
  }
}
