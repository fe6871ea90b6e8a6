/**
 The single-host deadlock reproducer: 2 * tp worker processes, one cyclic barrier shared by
 all of them, a one-shot barrier for the first wave, three events, and a parent that counts
 messages.

 Workers wait on counters and flags only; that they nevertheless move in the phase order of
 `Phases` is what is proved here.  The order of messages is kept per worker, workers are
 interleaved freely, any worker may die at any point, and the parent may give up at any
 point.  Giving up runs the cleanup, which sets every event and then breaks the barriers.
 */
module SingleHost {
  import opened Basics
  import opened Phases

  /**
   `arrivals[w]` is how often w has called the cyclic barrier's wait; `gen` is how often the
   barrier has opened and `count` how many have arrived since; `lined` counts the arrivals at
   the first wave's barrier.  `k` is how many releases the parent has made in good order.
   */
  datatype State = State(
    cfg: Config, st: Stages, dead: set<nat>, arrivals: seq<nat>, taken: seq<nat>,
    aReady: bool, start: bool, startCompute: bool,
    gen: nat, count: nat, lined: nat, broken: bool,
    messages: seq<Note>, k: nat, cleaned: bool)

  datatype Step =
    | Advance(w: nat)
    | Arrive(w: nat)
    | Die(w: nat)
    | Take(w: nat)
    | TakeError(w: nat)
    | Release
    | Cleanup
    | Abort

  ghost predicate WellFormed(s: State) {
    ValidConfig(s.cfg) && |s.st| == |s.arrivals| == |s.taken| == 2 * s.cfg.tp
  }

  ghost predicate Initial(s: State) {
    && WellFormed(s)
    && (forall w | 0 <= w < |s.st| :: s.st[w] == IDLE && s.arrivals[w] == 0 && s.taken[w] == 0)
    && !s.aReady && !s.start && !s.startCompute && !s.broken && !s.cleaned
    && s.gen == 0 && s.count == 0 && s.lined == 0 && s.messages == [] && s.k == 0 && s.dead == {}
  }

  /** How many times a worker has been through the barrier when it starts its warm-up. */
  function Turn(c: Config, w: nat): nat { if IsA(c, w) then 1 else 2 }

  /** What worker w waits for before its next step. */
  predicate MayAdvance(s: State, w: nat)
    requires w < |s.st| && w < |s.arrivals|
  {
    var stage := s.st[w];
    if stage == IDLE then IsA(s.cfg, w) || s.aReady
    else if stage == READY_SENT then s.arrivals[w] == Turn(s.cfg, w) <= s.gen
    else if stage == WARMED then s.arrivals[w] == 3 <= s.gen
    else if stage == ARMED_SENT then
      match WaveOf(s.cfg, w)
      case First => s.start && !s.broken
      case Second => s.start && s.startCompute
      case Aligned => s.start
    else if stage == LINED_UP then s.lined >= s.cfg.tp
    else stage < FINISHED
  }

  /** Between initialisation and arming every worker waits at the cyclic barrier three times. */
  predicate AtBarrier(c: Config, w: nat, stage: nat, arrivals: nat) {
    match arrivals
    case 0 => stage == READY_SENT
    case 1 => stage == if IsA(c, w) then WARMED else READY_SENT
    case 2 => stage == WARMED
    case _ => false
  }

  predicate MayArrive(s: State, w: nat)
    requires w < |s.st| && w < |s.arrivals|
  {
    !s.broken && s.arrivals[w] <= s.gen && AtBarrier(s.cfg, w, s.st[w], s.arrivals[w])
  }

  predicate MayRelease(s: State) {
    match s.k
    case 0 => Count(s.messages, READY) >= s.cfg.tp
    case 1 => Count(s.messages, ARMED) >= 2 * s.cfg.tp
    case 2 => s.cfg.crossed && Count(s.messages, MODEL_SUBMITTED(First)) >= s.cfg.tp
    case _ => false
  }

  predicate Enabled(s: State, step: Step) {
    match step
    case Advance(w) => w < |s.st| && w < |s.arrivals| && w !in s.dead && MayAdvance(s, w)
    case Arrive(w) => w < |s.st| && w < |s.arrivals| && w !in s.dead && MayArrive(s, w)
    case Die(w) => w < |s.st|
    case Take(w) => w < |s.st| && w < |s.taken| && !s.cleaned && s.taken[w] < SentBy(s.st[w])
    case TakeError(w) => w in s.dead && !s.cleaned
    case Release => !s.cleaned && MayRelease(s)
    case Cleanup => !s.cleaned
    case Abort => s.cleaned
  }

  function Do(s: State, step: Step): State
    requires Enabled(s, step)
  {
    match step
    case Advance(w) =>
      s.(st := s.st[w := Next(s.cfg, w, s.st[w])],
         lined := if s.st[w] == ARMED_SENT && WaveOf(s.cfg, w).First? then s.lined + 1 else s.lined)
    case Arrive(w) =>
      var arrivals := s.arrivals[w := s.arrivals[w] + 1];
      if s.count + 1 == 2 * s.cfg.tp
      then s.(arrivals := arrivals, gen := s.gen + 1, count := 0)
      else s.(arrivals := arrivals, count := s.count + 1)
    case Die(w) => s.(dead := s.dead + {w})
    case Take(w) =>
      s.(taken := s.taken[w := s.taken[w] + 1], messages := s.messages + [Note(KindAt(WaveOf(s.cfg, w), s.taken[w]), w)])
    case TakeError(w) => s.(messages := s.messages + [Note(ERROR, w)])
    case Release =>
      if s.k == 0 then s.(aReady := true, k := 1)
      else if s.k == 1 then s.(start := true, k := 2)
      else s.(startCompute := true, k := 3)
    case Cleanup => s.(aReady := true, start := true, startCompute := true, cleaned := true)
    case Abort => s.(broken := true)
  }

  ghost predicate Reaches(s: State, steps: seq<Step>, s': State)
    decreases |steps|
  {
    if steps == [] then s == s' else Enabled(s, steps[0]) && Reaches(Do(s, steps[0]), steps[1..], s')
  }

  // ---------------------------------------------------------------- the invariant

  /** Where a worker's place in the program and its calls of the barrier must agree. */
  ghost predicate Placed(c: Config, w: nat, stage: nat, arrivals: nat, gen: nat) {
    && stage <= FINISHED && arrivals <= 3 && gen <= arrivals <= gen + 1
    && (stage < READY_SENT ==> arrivals == 0)
    && (stage == READY_SENT ==> arrivals <= Turn(c, w))
    && (stage == WARMING ==> arrivals == Turn(c, w))
    && (stage >= WARMING ==> Turn(c, w) <= arrivals && Turn(c, w) <= gen)
    && (stage >= ARMED_SENT ==> gen == 3)
    && (stage == LINED_UP ==> WaveOf(c, w).First?)
  }

  ghost function Arrived(arrivals: seq<nat>, gen: nat): set<nat> {
    set w: nat | w < |arrivals| && arrivals[w] == gen + 1
  }

  ghost predicate BarrierInv(c: Config, st: Stages, arrivals: seq<nat>, gen: nat, count: nat) {
    && |arrivals| == |st| == 2 * c.tp
    && (forall w | 0 <= w < |st| :: Placed(c, w, st[w], arrivals[w], gen))
    && count == |Arrived(arrivals, gen)| && count < 2 * c.tp
  }

  ghost function LinedUp(c: Config, st: Stages): set<nat> {
    set w: nat | w < |st| && st[w] >= LINED_UP && WaveOf(c, w).First?
  }

  /** What the parent's releases say about the workers. */
  ghost predicate ReleasedInv(c: Config, st: Stages, k: nat) {
    && (k >= 1 ==> AllA(c, st, READY_SENT))
    && (k >= 2 ==> All(st, ARMED_SENT))
    && (k >= 3 ==> c.crossed && AllFirst(c, st, SUBMITTED_SENT))
  }

  ghost predicate EventsInv(s: State) {
    && (s.aReady ==> s.k >= 1 || s.cleaned)
    && (s.start ==> s.k >= 2 || s.cleaned)
    && (s.startCompute ==> s.k >= 3 || s.cleaned)
    && (!s.aReady ==> forall w | 0 <= w < |s.st| && !IsA(s.cfg, w) :: s.st[w] == IDLE)
    && (s.k >= 1 ==> s.aReady)
    && (s.cleaned ==> s.aReady && s.start && s.startCompute)
    && (s.broken ==> s.cleaned)
  }

  ghost predicate Inv(s: State) {
    && WellFormed(s)
    && BarrierInv(s.cfg, s.st, s.arrivals, s.gen, s.count)
    && s.lined == |LinedUp(s.cfg, s.st)|
    && TakenIsSent(s.st, s.taken) && CountsWorkers(s.cfg, s.messages, s.taken)
    && ReleasedInv(s.cfg, s.st, s.k)
    && EventsInv(s)
  }

  lemma InitialHolds(s: State)
    requires Initial(s)
    ensures Inv(s)
  {
    CountsNothing(s.cfg, s.taken);
    assert Arrived(s.arrivals, s.gen) == {};
    assert LinedUp(s.cfg, s.st) == {};
  }

  // ---------------------------------------------------------------- the barrier

  /** Whoever has arrived often enough is far enough in its program. */
  lemma BarrierMeans(c: Config, st: Stages, arrivals: seq<nat>, gen: nat, count: nat)
    requires BarrierInv(c, st, arrivals, gen, count)
    ensures gen >= 1 ==> All(st, READY_SENT)
    ensures gen >= 2 ==> AllA(c, st, WARMED)
    ensures gen >= 3 ==> All(st, WARMED)
  {
    forall w | 0 <= w < |st|
      ensures gen >= 1 ==> st[w] >= READY_SENT
      ensures gen >= 2 && IsA(c, w) ==> st[w] >= WARMED
      ensures gen >= 3 ==> st[w] >= WARMED
    {
      assert Placed(c, w, st[w], arrivals[w], gen);
    }
  }

  lemma ArriveCounts(arrivals: seq<nat>, gen: nat, w: nat)
    requires w < |arrivals| && arrivals[w] == gen
    ensures Arrived(arrivals[w := gen + 1], gen) == Arrived(arrivals, gen) + {w}
    ensures |Arrived(arrivals[w := gen + 1], gen)| == |Arrived(arrivals, gen)| + 1
  {
    assert Arrived(arrivals[w := gen + 1], gen) == Arrived(arrivals, gen) + {w};
  }

  /** The last arrival finds everyone else there, and the barrier opens with nobody left over. */
  lemma BarrierOpens(c: Config, st: Stages, arrivals: seq<nat>, gen: nat)
    requires |arrivals| == |st| == 2 * c.tp && c.tp > 0 && |Arrived(arrivals, gen)| == 2 * c.tp
    requires forall w | 0 <= w < |st| :: Placed(c, w, st[w], arrivals[w], gen)
    ensures BarrierInv(c, st, arrivals, gen + 1, 0)
  {
    BelowIs(2 * c.tp);
    forall v | 0 <= v < |st|
      ensures Placed(c, v, st[v], arrivals[v], gen + 1)
    {
      FullSet(Arrived(arrivals, gen), Below(2 * c.tp), v);
      assert Placed(c, v, st[v], arrivals[v], gen);
    }
    assert Arrived(arrivals, gen + 1) == {};
  }

  lemma ArriveKeeps(c: Config, st: Stages, arrivals: seq<nat>, gen: nat, count: nat, w: nat)
    requires BarrierInv(c, st, arrivals, gen, count) && w < |st| && arrivals[w] == gen
    requires AtBarrier(c, w, st[w], arrivals[w])
    ensures var arrivals' := arrivals[w := arrivals[w] + 1];
            if count + 1 == 2 * c.tp then BarrierInv(c, st, arrivals', gen + 1, 0)
            else BarrierInv(c, st, arrivals', gen, count + 1)
  {
    var arrivals' := arrivals[w := arrivals[w] + 1];
    assert Placed(c, w, st[w], arrivals[w], gen);
    assert Placed(c, w, st[w], arrivals'[w], gen);
    ArriveCounts(arrivals, gen, w);
    hide Placed;
    if count + 1 == 2 * c.tp {
      BarrierOpens(c, st, arrivals', gen);
    } else {
      SubsetOfWorkers(Arrived(arrivals', gen), 2 * c.tp);
    }
  }

  lemma SubsetOfWorkers(s: set<nat>, n: nat)
    requires forall w | w in s :: w < n
    ensures |s| <= n
  {
    BelowIs(n);
    SubsetCard(s, Below(n));
  }

  /** A worker's own step keeps the barrier's books. */
  lemma AdvanceBarrier(s: State, w: nat)
    requires Inv(s) && Enabled(s, Advance(w))
    ensures BarrierInv(s.cfg, s.st[w := Next(s.cfg, w, s.st[w])], s.arrivals, s.gen, s.count)
  {
    hide TakenIsSent, CountsWorkers, ReleasedInv, EventsInv, LinedUp, FirstWave;
    assert Placed(s.cfg, w, s.st[w], s.arrivals[w], s.gen);
  }

  lemma LinedUpGrows(c: Config, st: Stages, w: nat)
    requires w < |st| && (st[w] == LINED_UP ==> WaveOf(c, w).First?)
    ensures var st' := st[w := Next(c, w, st[w])];
            var joins := st[w] == ARMED_SENT && WaveOf(c, w).First?;
            |LinedUp(c, st')| == |LinedUp(c, st)| + if joins then 1 else 0
  {
    var st' := st[w := Next(c, w, st[w])];
    var joins := st[w] == ARMED_SENT && WaveOf(c, w).First?;
    assert LinedUp(c, st') == LinedUp(c, st) + (if joins then {w} else {});
    assert joins ==> w !in LinedUp(c, st);
  }

  // ---------------------------------------------------------------- each step keeps the invariant

  lemma AdvanceKeeps(s: State, w: nat)
    requires Inv(s) && Enabled(s, Advance(w))
    ensures Inv(Do(s, Advance(w)))
  {
    AdvanceBarrier(s, w);
    assert Placed(s.cfg, w, s.st[w], s.arrivals[w], s.gen);
    LinedUpGrows(s.cfg, s.st, w);
    Monotone(s.cfg, s.st, Do(s, Advance(w)).st, w);
    hide BarrierInv, LinedUp, CountsWorkers, All, AllA, AllFirst;
  }

  lemma TakeKeeps(s: State, w: nat)
    requires Inv(s) && Enabled(s, Take(w))
    ensures Inv(Do(s, Take(w)))
  {
    CountsAnother(s.cfg, s.messages, s.taken, w);
    hide BarrierInv, LinedUp, CountsWorkers, ReleasedInv, KindAt, WaveOf;
  }

  lemma ReleaseKeeps(s: State)
    requires Inv(s) && Enabled(s, Release)
    ensures Inv(Do(s, Release))
  {
    hide BarrierInv, LinedUp;
    match s.k {
      case 0 => ReadyFromA(s.cfg, s.messages, s.st, s.taken);
      case 1 => CountAll(s.cfg, s.messages, s.st, s.taken, ARMED);
      case 2 => CountWave(s.cfg, s.messages, s.st, s.taken, MODEL_SUBMITTED(First));
      case _ => assert false;
    }
  }

  lemma StepKeeps(s: State, step: Step)
    requires Inv(s) && Enabled(s, step)
    ensures Inv(Do(s, step))
  {
    match step {
      case Advance(w) => AdvanceKeeps(s, w);
      case Arrive(w) =>
        assert Placed(s.cfg, w, s.st[w], s.arrivals[w], s.gen);
        ArriveKeeps(s.cfg, s.st, s.arrivals, s.gen, s.count, w);
        hide BarrierInv, LinedUp, CountsWorkers, ReleasedInv;
      case Die(w) =>
      case Take(w) => TakeKeeps(s, w);
      case TakeError(w) => CountsError(s.cfg, s.messages, s.taken, w);
      case Release => ReleaseKeeps(s);
      case Cleanup =>
      case Abort =>
    }
  }

  // ---------------------------------------------------------------- refinement

  /** The parent has released everyone: its cleanup sets no event that was not due. */
  predicate AllReleased(s: State) { s.k >= if s.cfg.crossed then 3 else 2 }

  /** A worker that an early cleanup lets go before its turn. */
  ghost predicate Misreleased(s: State, w: nat)
    requires w < |s.st|
  {
    && w !in s.dead
    && if s.st[w] == IDLE then !IsA(s.cfg, w) && !AllA(s.cfg, s.st, READY_SENT)
       else if s.st[w] == ARMED_SENT then
         match WaveOf(s.cfg, w)
         case First => !All(s.st, ARMED_SENT) && !s.broken
         case Second => !AllFirst(s.cfg, s.st, SUBMITTED_SENT)
         case Aligned => !All(s.st, ARMED_SENT)
       else false
  }

  /** The barriers alone put the warm-ups in order and line the first wave up. */
  lemma BarrierGuards(s: State, w: nat)
    requires Inv(s) && Enabled(s, Advance(w))
    ensures s.st[w] == READY_SENT ==> if IsA(s.cfg, w) then All(s.st, READY_SENT) else AllA(s.cfg, s.st, WARMED)
    ensures s.st[w] == LINED_UP ==> PartnersLinedUp(s.cfg, s.st, w)
  {
    BarrierMeans(s.cfg, s.st, s.arrivals, s.gen, s.count);
    assert Placed(s.cfg, w, s.st[w], s.arrivals[w], s.gen);
    if s.st[w] == LINED_UP {
      WaveSizes(s.cfg);
      forall v | 0 <= v < |s.st| && FirstWave(s.cfg, v)
        ensures s.st[v] >= LINED_UP
      {
        FullSet(LinedUp(s.cfg, s.st), FirstWaveSet(s.cfg), v);
      }
    }
  }

  /** A worker moves in its turn, unless the cleanup has let it go early. */
  lemma AdvanceInTurn(s: State, w: nat)
    requires Inv(s) && Enabled(s, Advance(w))
    ensures Guard(s.cfg, s.st, w) <==> !(s.cleaned && Misreleased(s, w))
  {
    hide BarrierInv, TakenIsSent, CountsWorkers, LinedUp, FirstWave;
    BarrierGuards(s, w);
    hide All, AllA, AllFirst, PartnersLinedUp;
  }

  /** Every step of the program is a step of the phase machine, until a worker is let go early. */
  lemma StepRefines(s: State, step: Step)
    requires Inv(s) && Enabled(s, step)
    requires s.cleaned && step.Advance? ==> !Misreleased(s, step.w)
    ensures PhaseStep(s.cfg, s.st, Do(s, step).st)
  {
    hide Inv, Guard, Misreleased;
    if step.Advance? {
      AdvanceInTurn(s, step.w);
    }
  }

  // ---------------------------------------------------------------- when cleaning up is safe

  /** Every worker is alive or through with the cyclic barrier, so the barrier can still open to the end. */
  ghost predicate BarrierCanFinish(arrivals: seq<nat>, dead: set<nat>) {
    forall v: nat | v < |arrivals| :: v !in dead || arrivals[v] == 3
  }

  /** A live worker of B has not started to build, and some worker of A is not ready. */
  ghost predicate EarlyBuild(c: Config, st: Stages, dead: set<nat>) {
    exists w: nat :: w < |st| && w !in dead && !IsA(c, w) && st[w] == IDLE && !AllA(c, st, READY_SENT)
  }

  /** w is alive, has not entered, and entering would come too early for its wave. */
  ghost predicate EarlyEntry(c: Config, st: Stages, dead: set<nat>, w: nat)
    requires w < |st|
  {
    && w !in dead && st[w] <= ARMED_SENT
    && if WaveOf(c, w).Second? then !AllFirst(c, st, SUBMITTED_SENT)
       else exists v: nat :: v < |st| && v != w && st[v] < ARMED_SENT
  }

  /** What, at the moment of cleaning up, lets a worker out of turn later on. */
  ghost predicate CanBreak(c: Config, st: Stages, arrivals: seq<nat>, dead: set<nat>) {
    || EarlyBuild(c, st, dead)
    || (BarrierCanFinish(arrivals, dead) && exists w: nat :: w < |st| && EarlyEntry(c, st, dead, w))
  }

  ghost predicate Breakable(s: State) { CanBreak(s.cfg, s.st, s.arrivals, s.dead) }

  /** What a step does to stages, arrivals and the dead: it only adds, and never moves the dead. */
  ghost predicate Grows(s: State, s': State) {
    && s'.cfg == s.cfg && |s'.st| == |s.st| && |s'.arrivals| == |s.arrivals| && s.dead <= s'.dead
    && (forall v: nat | v < |s.st| :: s.st[v] <= s'.st[v] && (v in s.dead ==> s'.st[v] == s.st[v]))
    && (forall v: nat | v < |s.arrivals| :: s.arrivals[v] <= s'.arrivals[v] && (v in s.dead ==> s'.arrivals[v] == s.arrivals[v]))
  }

  lemma StepGrows(s: State, step: Step)
    requires Inv(s) && Enabled(s, step)
    ensures Grows(s, Do(s, step))
  {
    hide Inv, WaveOf;
  }

  lemma AllABack(c: Config, st: Stages, st': Stages, stage: nat)
    requires |st'| == |st| && (forall v: nat | v < |st| :: st[v] <= st'[v])
    ensures AllA(c, st, stage) ==> AllA(c, st', stage)
    ensures AllFirst(c, st, stage) ==> AllFirst(c, st', stage)
  {
  }

  /** A state that can break comes only from one that could. */
  lemma BreakableBefore(s: State, s': State)
    requires Grows(s, s') && Breakable(s')
    ensures Breakable(s)
  {
    hide AllA, AllFirst, FirstWave, IsA;
    AllABack(s.cfg, s.st, s'.st, READY_SENT);
    AllABack(s.cfg, s.st, s'.st, SUBMITTED_SENT);
    if EarlyBuild(s'.cfg, s'.st, s'.dead) {
      assert EarlyBuild(s.cfg, s.st, s.dead);
    } else {
      var w: nat :| w < |s'.st| && EarlyEntry(s'.cfg, s'.st, s'.dead, w);
      assert EarlyEntry(s.cfg, s.st, s.dead, w);
      assert BarrierCanFinish(s.arrivals, s.dead);
    }
  }

  /** A worker let go early was one that could be. */
  lemma MisreleasedBreakable(s: State, w: nat)
    requires Inv(s) && w < |s.st| && Misreleased(s, w)
    ensures Breakable(s)
  {
    hide TakenIsSent, CountsWorkers, LinedUp, ReleasedInv, EventsInv, AllA, AllFirst, FirstWave;
    assert Placed(s.cfg, w, s.st[w], s.arrivals[w], s.gen);
    if s.st[w] == ARMED_SENT {
      assert forall v | 0 <= v < |s.st| :: s.arrivals[v] == 3 by {
        forall v | 0 <= v < |s.st| ensures s.arrivals[v] == 3 { assert Placed(s.cfg, v, s.st[v], s.arrivals[v], s.gen); }
      }
      assert EarlyEntry(s.cfg, s.st, s.dead, w);
    } else {
      assert EarlyBuild(s.cfg, s.st, s.dead);
    }
  }

  /** With everyone released, cleaning up is safe. */
  lemma ReleasedIsSafe(s: State)
    requires Inv(s) && AllReleased(s)
    ensures !Breakable(s)
  {
    hide BarrierInv, TakenIsSent, CountsWorkers, LinedUp;
  }

  // ---------------------------------------------------------------- refinement of runs

  /** A run in which the parent cleans up, if at all, only when that is safe. */
  ghost predicate Orderly(s: State, steps: seq<Step>)
    decreases |steps|
  {
    steps != [] && Enabled(s, steps[0]) ==>
      (steps[0].Cleanup? ==> !Breakable(s)) && Orderly(Do(s, steps[0]), steps[1..])
  }

  lemma OrderlyStep(s: State, step: Step)
    requires Inv(s) && Enabled(s, step) && (s.cleaned || step.Cleanup? ==> !Breakable(s))
    ensures var s' := Do(s, step);
            && Inv(s') && s'.cfg == s.cfg && PhaseStep(s.cfg, s.st, s'.st)
            && (s'.cleaned ==> !Breakable(s'))
  {
    assert step.Advance? ==> step.w < |s.st|;
    var s' := Do(s, step);
    assert s'.cleaned ==> s.cleaned || step.Cleanup?;
    hide Inv, Misreleased, PhaseStep, Breakable, Grows, Do;
    if s.cleaned && step.Advance? && Misreleased(s, step.w) {
      MisreleasedBreakable(s, step.w);
      assert false;
    }
    StepKeeps(s, step);
    StepRefines(s, step);
    StepGrows(s, step);
    CfgStays(s, s');
    if s'.cleaned && Breakable(s') { BreakableBefore(s, s'); assert false; }
  }

  lemma CfgStays(s: State, s': State)
    requires Grows(s, s')
    ensures s'.cfg == s.cfg
  {
  }

  /**
   Refinement: along every run that cleans up only when that is safe, the workers go through
   a run of the phase machine, state by state.
   */
  lemma {:induction false} Refines(s: State, steps: seq<Step>, s': State) returns (trace: seq<Stages>)
    requires Inv(s) && Reaches(s, steps, s') && Orderly(s, steps) && (s.cleaned ==> !Breakable(s))
    ensures Inv(s') && s'.cfg == s.cfg
    ensures PhaseRun(s.cfg, trace) && trace[0] == s.st && trace[|trace| - 1] == s'.st
    decreases |steps|
  {
    hide Inv, PhaseStep, Enabled, Do, Breakable;
    if steps == [] {
      trace := [s.st];
    } else {
      OrderlyStep(s, steps[0]);
      var rest := Refines(Do(s, steps[0]), steps[1..], s');
      PhaseRunCons(s.cfg, s.st, rest);
      trace := [s.st] + rest;
    }
  }

  /** Every state of every such run is in phase. */
  lemma OrderlyInPhase(s: State, steps: seq<Step>, s': State)
    requires Initial(s) && Reaches(s, steps, s') && Orderly(s, steps)
    ensures InPhase(s'.cfg, s'.st)
  {
    hide Inv, PhaseStep, Reaches, InPhase;
    InitialHolds(s);
    var trace := Refines(s, steps, s');
    PhaseRunKeeps(s.cfg, trace, |trace| - 1);
  }

  // ---------------------------------------------------------------- all runs

  lemma {:induction false} RunKeeps(s: State, steps: seq<Step>, s': State)
    requires Inv(s) && Reaches(s, steps, s')
    ensures Inv(s')
    decreases |steps|
  {
    hide Inv, Enabled;
    if steps != [] {
      StepKeeps(s, steps[0]);
      RunKeeps(Do(s, steps[0]), steps[1..], s');
    }
  }

  /**
   On all runs, cleaned up early or not, no warm-up forward of A overlaps one of B: that is
   the cyclic barrier's doing and needs none of the events.
   */
  lemma NoWarmOverlap(s: State, steps: seq<Step>, s': State, a: nat, b: nat)
    requires Initial(s) && Reaches(s, steps, s') && a < s'.cfg.tp <= b < |s'.st| && |s'.st| == 2 * s'.cfg.tp
    ensures !(s'.st[a] == WARMING && s'.st[b] == WARMING)
    ensures s'.st[b] >= WARMING ==> s'.st[a] >= WARMED
    ensures s'.st[a] >= WARMING ==> s'.st[b] >= READY_SENT
  {
    hide Initial, Reaches, TakenIsSent, CountsWorkers, LinedUp, ReleasedInv, EventsInv;
    InitialHolds(s);
    RunKeeps(s, steps, s');
    BarrierMeans(s'.cfg, s'.st, s'.arrivals, s'.gen, s'.count);
    assert Placed(s'.cfg, a, s'.st[a], s'.arrivals[a], s'.gen);
    assert Placed(s'.cfg, b, s'.st[b], s'.arrivals[b], s'.gen);
  }

  // ---------------------------------------------------------------- what an early cleanup leads to

  lemma {:induction false} ReachesConcat(s: State, a: seq<Step>, t: State, b: seq<Step>, s': State)
    requires Reaches(s, a, t) && Reaches(t, b, s')
    ensures Reaches(s, a + b, s')
    decreases |a|
  {
    hide Enabled, Do;
    if a == [] {
      assert a + b == b;
    } else {
      assert (a + b)[0] == a[0] && (a + b)[1..] == a[1..] + b;
      ReachesConcat(Do(s, a[0]), a[1..], t, b, s');
    }
  }

  lemma ReachesOne(s: State, step: Step)
    requires Enabled(s, step)
    ensures Reaches(s, [step], Do(s, step))
  {
    assert [step][1..] == [];
    assert Reaches(Do(s, step), [], Do(s, step));
  }

  /** How much is left to do for a worker until it is through with the barrier. */
  function Left(stage: nat, arrivals: nat): nat {
    (if stage < WARMED then WARMED - stage else 0) + if arrivals < 3 then 3 - arrivals else 0
  }

  function AllLeft(st: Stages, arrivals: seq<nat>, n: nat): nat
    requires n <= |st| && n <= |arrivals|
  {
    if n == 0 then 0 else AllLeft(st, arrivals, n - 1) + Left(st[n - 1], arrivals[n - 1])
  }

  lemma {:induction false} LessLeft(st: Stages, arrivals: seq<nat>, st': Stages, arrivals': seq<nat>, n: nat, w: nat)
    requires n <= |st| == |arrivals| == |st'| == |arrivals'| && w < |st|
    requires forall v | 0 <= v < |st| && v != w :: st'[v] == st[v] && arrivals'[v] == arrivals[v]
    requires Left(st'[w], arrivals'[w]) < Left(st[w], arrivals[w])
    ensures AllLeft(st', arrivals', n) <= AllLeft(st, arrivals, n)
    ensures w < n ==> AllLeft(st', arrivals', n) < AllLeft(st, arrivals, n)
    decreases n
  {
    if n > 0 { LessLeft(st, arrivals, st', arrivals', n - 1, w); }
  }

  /** Nobody beyond the warm-up has moved, nobody before it has been moved beyond, and nobody has died. */
  ghost predicate Pushed(s: State, s': State) {
    && s'.cfg == s.cfg && s'.dead == s.dead && s'.cleaned == s.cleaned && s'.broken == s.broken && |s'.st| == |s.st|
    && forall v | 0 <= v < |s.st| :: if s.st[v] >= WARMED then s'.st[v] == s.st[v] else s'.st[v] <= WARMED
  }

  lemma EveryoneArrived(arrivals: seq<nat>, gen: nat)
    requires forall v | 0 <= v < |arrivals| :: arrivals[v] == gen + 1
    ensures |Arrived(arrivals, gen)| == |arrivals|
  {
    BelowIs(|arrivals|);
    assert Arrived(arrivals, gen) == Below(|arrivals|);
  }

  /** A worker that has not arrived at the closed barrier. */
  lemma SomeoneMissing(s: State) returns (w: nat)
    requires Inv(s)
    ensures w < |s.st| && s.arrivals[w] == s.gen
  {
    hide TakenIsSent, CountsWorkers, LinedUp, ReleasedInv, EventsInv;
    if forall v | 0 <= v < |s.arrivals| :: s.arrivals[v] == s.gen + 1 {
      EveryoneArrived(s.arrivals, s.gen);
      assert false;
    }
    w :| w < |s.arrivals| && s.arrivals[w] != s.gen + 1;
    assert Placed(s.cfg, w, s.st[w], s.arrivals[w], s.gen);
  }

  /** After the cleanup, such a worker that lives can take a step towards the barrier. */
  lemma PushOne(s: State, w: nat) returns (step: Step)
    requires Inv(s) && s.cleaned && !s.broken && s.gen < 3 && w < |s.st| && w !in s.dead && s.arrivals[w] == s.gen
    ensures Enabled(s, step) && Pushed(s, Do(s, step)) && (step == Advance(w) || step == Arrive(w))
    ensures var s' := Do(s, step);
            && |s'.arrivals| == |s.st|
            && (forall v | 0 <= v < |s.st| && v != w :: s'.st[v] == s.st[v] && s'.arrivals[v] == s.arrivals[v])
            && Left(s'.st[w], s'.arrivals[w]) < Left(s.st[w], s.arrivals[w])
            && (BarrierCanFinish(s.arrivals, s.dead) ==> BarrierCanFinish(s'.arrivals, s'.dead))
  {
    hide TakenIsSent, CountsWorkers, LinedUp, ReleasedInv, FirstWave;
    assert Placed(s.cfg, w, s.st[w], s.arrivals[w], s.gen);
    step := if AtBarrier(s.cfg, w, s.st[w], s.arrivals[w]) then Arrive(w) else Advance(w);
  }

  ghost predicate SameSize(s: State) { |s.st| == |s.arrivals| }

  lemma PushAny(s: State) returns (step: Step)
    requires Inv(s) && SameSize(s) && s.cleaned && !s.broken && s.gen < 3 && BarrierCanFinish(s.arrivals, s.dead)
    ensures Enabled(s, step)
    ensures var s' := Do(s, step);
            && Inv(s') && SameSize(s') && Pushed(s, s') && BarrierCanFinish(s'.arrivals, s'.dead)
            && AllLeft(s'.st, s'.arrivals, |s'.st|) < AllLeft(s.st, s.arrivals, |s.st|)
  {
    var w := SomeoneMissing(s);
    assert w !in s.dead;
    step := PushOne(s, w);
    hide Inv, AllLeft, Left, BarrierCanFinish;
    StepKeeps(s, step);
    var s' := Do(s, step);
    LessLeft(s.st, s.arrivals, s'.st, s'.arrivals, |s.st|, w);
  }

  lemma PushedNothing(s: State)
    ensures Pushed(s, s)
  {
  }

  /** As long as everyone needed is alive, the barrier can be opened to the end, moving nobody beyond its warm-up. */
  lemma {:induction false} OpenBarrier(s: State) returns (steps: seq<Step>, s': State)
    requires Inv(s) && SameSize(s) && s.cleaned && !s.broken && BarrierCanFinish(s.arrivals, s.dead)
    ensures Reaches(s, steps, s') && Inv(s') && Pushed(s, s') && s'.gen >= 3
    decreases AllLeft(s.st, s.arrivals, |s.st|)
  {
    hide Inv, Pushed, BarrierCanFinish, Do, Enabled, AllLeft;
    if s.gen >= 3 {
      steps, s' := [], s;
      assert Pushed(s, s) by { PushedNothing(s); }
    } else {
      var step := PushAny(s);
      var next := Do(s, step);
      PushedFlags(s, next);
      var rest;
      rest, s' := OpenBarrier(next);
      steps := [step] + rest;
      ReachesOne(s, step);
      ReachesConcat(s, [step], next, rest, s');
      PushedTwice(s, next, s');
    }
  }

  lemma PushedTwice(s: State, t: State, s': State)
    requires Pushed(s, t) && Pushed(t, s')
    ensures Pushed(s, s')
  {
  }

  /** Some step, now or later, leaves the phase machine. */
  ghost predicate Leaves(s: State) {
    exists steps: seq<Step>, t: State, step: Step ::
      Reaches(s, steps, t) && Enabled(t, step) && !PhaseStep(t.cfg, t.st, Do(t, step).st)
  }

  lemma LeavesBy(s: State, steps: seq<Step>, t: State, w: nat)
    requires Reaches(s, steps, t) && Inv(t) && t.cleaned && w < |t.st| && Misreleased(t, w)
    ensures Leaves(s)
  {
    hide Inv, Reaches, Misreleased, PhaseStep;
    MisreleasedMoves(t, w);
    assert Reaches(s, steps, t) && Enabled(t, Advance(w)) && !PhaseStep(t.cfg, t.st, Do(t, Advance(w)).st);
  }

  /** A worker that may go too early, pushed to the point where it is armed and about to. */
  lemma ArmEarly(s: State, w: nat) returns (steps: seq<Step>, s': State)
    requires Inv(s) && s.cleaned && !s.broken && s.gen >= 3 && w < |s.st| && EarlyEntry(s.cfg, s.st, s.dead, w)
    ensures Reaches(s, steps, s') && Inv(s') && s'.cleaned && w < |s'.st| && Misreleased(s', w)
  {
    hide TakenIsSent, CountsWorkers, LinedUp, ReleasedInv, FirstWave;
    assert Placed(s.cfg, w, s.st[w], s.arrivals[w], s.gen);
    if s.st[w] == ARMED_SENT {
      steps, s' := [], s;
      StillEarly(s.cfg, s.st, s'.st, w);
    } else {
      BarrierMeans(s.cfg, s.st, s.arrivals, s.gen, s.count);
      assert s.st[w] >= WARMED;
      assert s.st[w] == WARMED && Enabled(s, Advance(w));
      steps, s' := [Advance(w)], Do(s, Advance(w));
      ReachesOne(s, Advance(w));
      StepKeeps(s, Advance(w));
      StillEarly(s.cfg, s.st, s'.st, w);
    }
  }

  lemma StillEarly(c: Config, st: Stages, st': Stages, w: nat)
    requires w < |st| == |st'| && st'[w] == ARMED_SENT && forall v | 0 <= v < |st| && v != w :: st'[v] == st[v]
    requires if WaveOf(c, w).Second? then !AllFirst(c, st, SUBMITTED_SENT) else exists v: nat :: v < |st| && v != w && st[v] < ARMED_SENT
    ensures if WaveOf(c, w).Second? then !AllFirst(c, st', SUBMITTED_SENT) else !All(st', ARMED_SENT)
  {
  }

  /** Who may go too early still may after the barrier has been opened. */
  lemma EarlyStays(s: State, s': State, w: nat)
    requires Pushed(s, s') && w < |s.st| && EarlyEntry(s.cfg, s.st, s.dead, w)
    ensures EarlyEntry(s'.cfg, s'.st, s'.dead, w)
  {
    hide FirstWave, IsA;
    if WaveOf(s.cfg, w).Second? {
      var v :| 0 <= v < |s.st| && FirstWave(s.cfg, v) && s.st[v] < SUBMITTED_SENT;
      assert s'.st[v] < SUBMITTED_SENT;
    } else {
      var v: nat :| v < |s.st| && v != w && s.st[v] < ARMED_SENT;
      assert s'.st[v] < ARMED_SENT;
    }
  }

  /** From a state that can break, cleaned up, some run does. */
  lemma BreakableLeaves(s: State)
    requires Inv(s) && s.cleaned && !s.broken && Breakable(s)
    ensures Leaves(s)
  {
    if EarlyBuild(s.cfg, s.st, s.dead) {
      var w: nat :| w < |s.st| && w !in s.dead && !IsA(s.cfg, w) && s.st[w] == IDLE && !AllA(s.cfg, s.st, READY_SENT);
      assert Reaches(s, [], s);
      LeavesBy(s, [], s, w);
    } else {
      var w: nat :| w < |s.st| && EarlyEntry(s.cfg, s.st, s.dead, w);
      assert SameSize(s);
      hide Inv, EarlyEntry, BarrierCanFinish, Reaches, Misreleased, Leaves;
      var a, t := OpenBarrier(s);
      PushedFlags(s, t);
      EarlyStays(s, t, w);
      var b, t' := ArmEarly(t, w);
      ReachesConcat(s, a, t, b, t');
      LeavesBy(s, a + b, t', w);
    }
  }

  lemma PushedFlags(s: State, s': State)
    requires Pushed(s, s')
    ensures s'.cleaned == s.cleaned && s'.broken == s.broken && |s'.st| == |s.st|
  {
  }

  /** From a state that cannot break, cleaned up, no run ever does. */
  lemma {:induction false} SafeNeverLeaves(s: State, steps: seq<Step>, t: State, step: Step)
    requires Inv(s) && s.cleaned && !Breakable(s) && Reaches(s, steps, t) && Enabled(t, step)
    ensures PhaseStep(t.cfg, t.st, Do(t, step).st)
    decreases |steps|
  {
    hide Inv, Breakable, PhaseStep, Enabled, Do;
    if steps == [] {
      OrderlyStep(s, step);
    } else {
      OrderlyStep(s, steps[0]);
      StaysCleaned(s, steps[0]);
      SafeNeverLeaves(Do(s, steps[0]), steps[1..], t, step);
    }
  }

  lemma StaysCleaned(s: State, step: Step)
    requires Enabled(s, step) && s.cleaned
    ensures Do(s, step).cleaned
  {
  }

  /**
   The parent cleans up in any reachable state: some continuation leaves the phase machine if
   and only if, in that state, a live worker of B could start building with A not ready, or the
   barrier can still be passed and a live worker that has not entered would do so too early.
   */
  lemma EarlyCleanup(s: State, steps: seq<Step>, s': State)
    requires Initial(s) && Reaches(s, steps, s') && !s'.cleaned
    ensures Leaves(Do(s', Cleanup)) <==> CanBreak(s'.cfg, s'.st, s'.arrivals, s'.dead)
  {
    hide Initial, Reaches, BarrierInv, TakenIsSent, CountsWorkers, LinedUp, ReleasedInv, CanBreak, PhaseStep;
    InitialHolds(s);
    RunKeeps(s, steps, s');
    StepKeeps(s', Cleanup);
    var t := Do(s', Cleanup);
    assert !t.broken;
    hide Inv;
    if Breakable(t) {
      BreakableLeaves(t);
    } else if Leaves(t) {
      var more: seq<Step>, u: State, step: Step :|
        Reaches(t, more, u) && Enabled(u, step) && !PhaseStep(u.cfg, u.st, Do(u, step).st);
      SafeNeverLeaves(t, more, u, step);
      assert false;
    }
  }

  /** Only a step of w can move w, so a step out of turn is no step of the machine at all. */
  lemma MisreleasedMoves(s: State, w: nat)
    requires Inv(s) && s.cleaned && w < |s.st| && Misreleased(s, w)
    ensures Enabled(s, Advance(w)) && !PhaseStep(s.cfg, s.st, Do(s, Advance(w)).st)
  {
    hide BarrierInv, TakenIsSent, CountsWorkers, LinedUp, ReleasedInv, FirstWave, All, AllA, AllFirst;
    AdvanceInTurn(s, w);
    hide Inv, Guard, Misreleased;
    var st' := Do(s, Advance(w)).st;
    assert st'[w] != s.st[w];
    forall v: nat | v < |s.st| && v != w
      ensures st' != s.st[v := Next(s.cfg, v, s.st[v])]
    {
      assert s.st[v := Next(s.cfg, v, s.st[v])][w] == s.st[w];
    }
  }

  /** It does happen: the parent times out waiting for A, and B starts building with A not ready. */
  lemma EarlyCleanupHappens() returns (s: State, steps: seq<Step>, s': State)
    ensures Initial(s) && Reaches(s, steps, s') && |steps| == 2
    ensures !InPhase(s'.cfg, s'.st)
  {
    var c := Config(2, true);
    s := State(c, [0, 0, 0, 0], {}, [0, 0, 0, 0], [0, 0, 0, 0], false, false, false, 0, 0, 0, false, [], 0, false);
    var s1 := Do(s, Cleanup);
    s' := Do(s1, Advance(2));
    steps := [Cleanup, Advance(2)];
    assert steps[1..] == [Advance(2)] && steps[1..][1..] == [];
    assert Reaches(s1, steps[1..], s');
    assert s'.st[2] == INIT && s'.st[0] == IDLE;
  }

  /** The verdict, at the end of any run that got as far as releasing everyone. */
  lemma VerdictHolds(s: State, steps: seq<Step>, s': State)
    requires Initial(s) && Reaches(s, steps, s')
    ensures Judge(s'.cfg, s'.messages).DEADLOCK_REPRODUCED? ==>
              && AllFirst(s'.cfg, s'.st, SUBMITTED_SENT) && All(s'.st, ENTERED)
              && Count(s'.messages, MODEL_DONE) == 0 && Count(s'.messages, DONE) == 0
    ensures Judge(s'.cfg, s'.messages).NO_DEADLOCK? || Judge(s'.cfg, s'.messages).NORMAL_CONTROL_PASSED? ==> All(s'.st, FINISHED)
    ensures Count(s'.messages, DONE) <= Count(s'.messages, MODEL_DONE)
  {
    hide Initial, Reaches, TakenIsSent, CountsWorkers, LinedUp, ReleasedInv, EventsInv, BarrierInv, Judge;
    InitialHolds(s);
    RunKeeps(s, steps, s');
    VerdictMeans(s'.cfg, s'.messages, s'.st, s'.taken);
    DoneAfterModelDone(s'.cfg, s'.messages, s'.taken);
  }
}
