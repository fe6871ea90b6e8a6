/**
 The two-container deadlock reproducer: each model runs in a container of its own, whose
 participant starts the workers and sets their events when a command arrives.  The
 coordinator sends commands and counts the events the participants relay.

 Commands keep their order per participant and messages keep their order per worker;
 everything else is interleaved freely.  Any worker may die at any point, and the
 coordinator may stop at any point.
 */
module TwoContainer {
  import opened Basics
  import opened Phases

  datatype Command = START_WORKERS | WARMUP | RUN_ALIGNED | RUN_FIRST | RUN_SECOND

  /** `handled` counts the commands acted on; `failed` is set by a command out of order. */
  datatype Participant = Participant(
    handled: nat, initialized: bool, warmup: bool, runFirst: bool, runSecond: bool, lined: nat, failed: bool)

  /** Participant 0 hosts model A and 1 hosts model B.  `k` counts the coordinator's sends. */
  datatype State = State(
    cfg: Config, st: Stages, dead: set<nat>, taken: seq<nat>,
    parts: seq<Participant>, outbox: seq<seq<Command>>,
    messages: seq<Note>, k: nat, over: bool)

  datatype Step =
    | Advance(w: nat)
    | Die(w: nat)
    | Handle(p: nat)
    | Take(w: nat)
    | TakeError(w: nat)
    | Release
    | GiveUp

  ghost predicate WellFormed(s: State) {
    ValidConfig(s.cfg) && |s.st| == |s.taken| == 2 * s.cfg.tp && |s.parts| == |s.outbox| == 2
  }

  ghost predicate Initial(s: State) {
    && WellFormed(s)
    && (forall w | 0 <= w < |s.st| :: s.st[w] == IDLE && s.taken[w] == 0)
    && (forall p | 0 <= p < 2 :: s.parts[p] == Participant(0, false, false, false, false, 0, false) && s.outbox[p] == [])
    && s.messages == [] && s.k == 0 && !s.over
  }

  function Host(c: Config, w: nat): nat { if IsA(c, w) then 0 else 1 }

  predicate MayAdvance(c: Config, stage: nat, w: nat, p: Participant) {
    if stage == IDLE then p.initialized
    else if stage == READY_SENT then p.warmup
    else if stage == ARMED_SENT then
      match WaveOf(c, w)
      case First => p.runFirst
      case Second => p.runSecond
      case Aligned => p.runFirst
    else if stage == LINED_UP then p.lined >= c.tp / 2
    else stage < FINISHED
  }

  predicate MayRelease(s: State) {
    match s.k
    case 0 => true
    case 1 => CountModel(s.cfg, s.messages, READY, true) >= s.cfg.tp
    case 2 => CountModel(s.cfg, s.messages, READY, false) >= s.cfg.tp
    case 3 => CountModel(s.cfg, s.messages, ARMED, true) >= s.cfg.tp
    case 4 => CountModel(s.cfg, s.messages, ARMED, false) >= s.cfg.tp
    case 5 => s.cfg.crossed && Count(s.messages, MODEL_SUBMITTED(First)) >= s.cfg.tp
    case _ => false
  }

  predicate Enabled(s: State, step: Step) {
    && |s.parts| == |s.outbox| == 2 && |s.taken| == |s.st|
    && match step
       case Advance(w) => w < |s.st| && w !in s.dead && MayAdvance(s.cfg, s.st[w], w, s.parts[Host(s.cfg, w)])
       case Die(w) => w < |s.st|
       case Handle(p) => p < 2 && !s.parts[p].failed && s.parts[p].handled < |s.outbox[p]|
       case Take(w) => w < |s.st| && !s.over && s.taken[w] < SentBy(s.st[w])
       case TakeError(w) => w in s.dead && !s.over
       case Release => !s.over && MayRelease(s)
       case GiveUp => !s.over
  }

  /** A participant acts on one command, or stops because it came out of order. */
  function Obey(p: Participant, cmd: Command): Participant {
    var q := p.(handled := p.handled + 1);
    match cmd
    case START_WORKERS => if p.initialized then p.(failed := true) else q.(initialized := true)
    case WARMUP => if !p.initialized then p.(failed := true) else q.(warmup := true)
    case RUN_ALIGNED => if !p.initialized then p.(failed := true) else q.(runFirst := true)
    case RUN_FIRST => if !p.initialized then p.(failed := true) else q.(runFirst := true)
    case RUN_SECOND => if !p.initialized then p.(failed := true) else q.(runSecond := true)
  }

  /** What the coordinator sends next to either participant, if anything. */
  function ToSend(c: Config, k: nat, p: nat): seq<Command> {
    match k
    case 0 => if p == 0 then [START_WORKERS] else []
    case 1 => if p == 1 then [START_WORKERS] else []
    case 2 => if p == 0 then [WARMUP] else []
    case 3 => if p == 1 then [WARMUP] else []
    case 4 => if c.crossed then [RUN_FIRST] else [RUN_ALIGNED]
    case 5 => [RUN_SECOND]
    case _ => []
  }

  function Do(s: State, step: Step): State
    requires Enabled(s, step)
  {
    match step
    case Advance(w) =>
      var p := Host(s.cfg, w);
      var lines := s.st[w] == ARMED_SENT && WaveOf(s.cfg, w).First?;
      s.(st := s.st[w := Next(s.cfg, w, s.st[w])],
         parts := s.parts[p := s.parts[p].(lined := s.parts[p].lined + if lines then 1 else 0)])
    case Die(w) => s.(dead := s.dead + {w})
    case Handle(p) => s.(parts := s.parts[p := Obey(s.parts[p], s.outbox[p][s.parts[p].handled])])
    case Take(w) =>
      s.(taken := s.taken[w := s.taken[w] + 1], messages := s.messages + [Note(KindAt(WaveOf(s.cfg, w), s.taken[w]), w)])
    case TakeError(w) => s.(messages := s.messages + [Note(ERROR, w)], over := true)
    case Release =>
      s.(k := s.k + 1, outbox := [s.outbox[0] + ToSend(s.cfg, s.k, 0), s.outbox[1] + ToSend(s.cfg, s.k, 1)])
    case GiveUp => s.(over := true)
  }

  ghost predicate Reaches(s: State, steps: seq<Step>, s': State)
    decreases |steps|
  {
    if steps == [] then s == s' else Enabled(s, steps[0]) && Reaches(Do(s, steps[0]), steps[1..], s')
  }

  // ---------------------------------------------------------------- the invariant

  function Script(c: Config): seq<Command> {
    [START_WORKERS, WARMUP, if c.crossed then RUN_FIRST else RUN_ALIGNED, RUN_SECOND]
  }

  /** How much of the script participant p has been sent after k sends. */
  function SentTo(k: nat, p: nat): nat {
    if k >= 6 then 4
    else if k >= 5 then 3
    else if k >= (if p == 0 then 3 else 4) then 2
    else if k >= (if p == 0 then 1 else 2) then 1
    else 0
  }

  /** A participant's flags are exactly those of the commands it has handled, in the script's order. */
  ghost predicate PartInv(c: Config, k: nat, p: nat, x: Participant, outbox: seq<Command>) {
    && k <= 6 && outbox == Script(c)[..SentTo(k, p)]
    && x.handled <= |outbox| && !x.failed
    && x.initialized == (x.handled >= 1) && x.warmup == (x.handled >= 2)
    && x.runFirst == (x.handled >= 3) && x.runSecond == (x.handled >= 4)
  }

  ghost function LinedUp(c: Config, st: Stages, p: nat): set<nat> {
    set w: nat | w < |st| && st[w] >= LINED_UP && WaveOf(c, w).First? && Host(c, w) == p
  }

  ghost predicate ReleasedInv(c: Config, st: Stages, k: nat) {
    && (k >= 2 ==> AllA(c, st, READY_SENT))
    && (k >= 3 ==> All(st, READY_SENT))
    && (k >= 4 ==> AllA(c, st, ARMED_SENT))
    && (k >= 5 ==> All(st, ARMED_SENT))
    && (k >= 6 ==> AllFirst(c, st, SUBMITTED_SENT))
  }

  ghost predicate StageInv(c: Config, st: Stages) {
    forall w | 0 <= w < |st| :: st[w] <= FINISHED && (st[w] == LINED_UP ==> WaveOf(c, w).First?)
  }

  ghost predicate Inv(s: State) {
    && WellFormed(s)
    && StageInv(s.cfg, s.st)
    && (forall p | 0 <= p < 2 :: PartInv(s.cfg, s.k, p, s.parts[p], s.outbox[p]))
    && (forall p | 0 <= p < 2 :: s.parts[p].lined == |LinedUp(s.cfg, s.st, p)|)
    && TakenIsSent(s.st, s.taken) && CountsWorkers(s.cfg, s.messages, s.taken)
    && ReleasedInv(s.cfg, s.st, s.k)
  }

  lemma InitialHolds(s: State)
    requires Initial(s)
    ensures Inv(s)
  {
    CountsNothing(s.cfg, s.taken);
    assert forall p :: LinedUp(s.cfg, s.st, p) == {};
  }

  // ---------------------------------------------------------------- each step keeps the invariant

  lemma LinedUpGrows(c: Config, st: Stages, w: nat, p: nat)
    requires w < |st| && (st[w] == LINED_UP ==> WaveOf(c, w).First?)
    ensures var st' := st[w := Next(c, w, st[w])];
            var joins := st[w] == ARMED_SENT && WaveOf(c, w).First? && Host(c, w) == p;
            |LinedUp(c, st', p)| == |LinedUp(c, st, p)| + if joins then 1 else 0
  {
    var st' := st[w := Next(c, w, st[w])];
    var joins := st[w] == ARMED_SENT && WaveOf(c, w).First? && Host(c, w) == p;
    assert LinedUp(c, st', p) == LinedUp(c, st, p) + (if joins then {w} else {});
    assert joins ==> w !in LinedUp(c, st, p);
  }

  lemma PartIgnoresLined(s: State, w: nat)
    requires Inv(s) && Enabled(s, Advance(w))
    ensures var s' := Do(s, Advance(w)); forall p | 0 <= p < 2 :: PartInv(s.cfg, s.k, p, s'.parts[p], s.outbox[p])
  {
    hide LinedUp, CountsWorkers, ReleasedInv, StageInv, TakenIsSent;
    var s' := Do(s, Advance(w));
    assert forall p | 0 <= p < 2 :: s'.parts[p] == s.parts[p].(lined := s'.parts[p].lined);
  }

  lemma AdvanceLined(s: State, w: nat)
    requires Inv(s) && Enabled(s, Advance(w))
    ensures var s' := Do(s, Advance(w)); forall p | 0 <= p < 2 :: s'.parts[p].lined == |LinedUp(s.cfg, s'.st, p)|
  {
    hide PartInv, CountsWorkers, ReleasedInv, TakenIsSent, FirstWave;
    LinedUpGrows(s.cfg, s.st, w, 0);
    LinedUpGrows(s.cfg, s.st, w, 1);
    hide LinedUp;
  }

  lemma AdvanceStages(s: State, w: nat)
    requires Inv(s) && Enabled(s, Advance(w))
    ensures var s' := Do(s, Advance(w));
            StageInv(s.cfg, s'.st) && TakenIsSent(s'.st, s.taken) && ReleasedInv(s.cfg, s'.st, s.k)
  {
    hide PartInv, CountsWorkers, LinedUp, FirstWave;
    Monotone(s.cfg, s.st, Do(s, Advance(w)).st, w);
    hide All, AllA, AllFirst;
  }

  lemma AdvanceKeeps(s: State, w: nat)
    requires Inv(s) && Enabled(s, Advance(w))
    ensures Inv(Do(s, Advance(w)))
  {
    hide LinedUp, CountsWorkers, ReleasedInv, StageInv, TakenIsSent, PartInv;
    PartIgnoresLined(s, w);
    AdvanceLined(s, w);
    AdvanceStages(s, w);
  }

  lemma HandleKeeps(s: State, p: nat)
    requires Inv(s) && Enabled(s, Handle(p))
    ensures Inv(Do(s, Handle(p)))
  {
    hide LinedUp, CountsWorkers, ReleasedInv, TakenIsSent, StageInv;
    var x := s.parts[p];
    assert PartInv(s.cfg, s.k, p, x, s.outbox[p]);
    assert s.outbox[p][x.handled] == Script(s.cfg)[x.handled];
  }

  lemma TakeKeeps(s: State, w: nat)
    requires Inv(s) && Enabled(s, Take(w))
    ensures Inv(Do(s, Take(w)))
  {
    CountsAnother(s.cfg, s.messages, s.taken, w);
    hide LinedUp, CountsWorkers, ReleasedInv, KindAt, WaveOf, PartInv, StageInv;
  }

  /** The next command goes on the end of what the script has sent so far. */
  lemma SendKeeps(c: Config, k: nat, p: nat, x: Participant, outbox: seq<Command>)
    requires PartInv(c, k, p, x, outbox) && p < 2 && k < 6
    ensures PartInv(c, k + 1, p, x, outbox + ToSend(c, k, p))
  {
    var m := SentTo(k, p);
    if ToSend(c, k, p) != [] {
      assert SentTo(k + 1, p) == m + 1 && ToSend(c, k, p) == [Script(c)[m]];
      assert Script(c)[..m + 1] == Script(c)[..m] + [Script(c)[m]];
    }
  }

  lemma ReleaseKeeps(s: State)
    requires Inv(s) && Enabled(s, Release)
    ensures Inv(Do(s, Release))
  {
    hide LinedUp, StageInv, PartInv, FirstWave;
    assert PartInv(s.cfg, s.k, 0, s.parts[0], s.outbox[0]) && PartInv(s.cfg, s.k, 1, s.parts[1], s.outbox[1]);
    SendKeeps(s.cfg, s.k, 0, s.parts[0], s.outbox[0]);
    SendKeeps(s.cfg, s.k, 1, s.parts[1], s.outbox[1]);
    EnoughHeard(s);
    hide CountsWorkers, ReleasedInv, TakenIsSent, ToSend, MayRelease;
  }

  /** What the count behind each release says about the workers. */
  lemma EnoughHeard(s: State)
    requires Inv(s) && Enabled(s, Release)
    ensures ReleasedInv(s.cfg, s.st, s.k + 1)
  {
    hide LinedUp, StageInv, PartInv;
    match s.k {
      case 0 =>
      case 1 => CountOfModel(s.cfg, s.messages, s.st, s.taken, READY, true);
      case 2 => CountOfModel(s.cfg, s.messages, s.st, s.taken, READY, false);
      case 3 => CountOfModel(s.cfg, s.messages, s.st, s.taken, ARMED, true);
      case 4 => CountOfModel(s.cfg, s.messages, s.st, s.taken, ARMED, false);
      case _ => CountWave(s.cfg, s.messages, s.st, s.taken, MODEL_SUBMITTED(First));
    }
  }

  lemma StepKeeps(s: State, step: Step)
    requires Inv(s) && Enabled(s, step)
    ensures Inv(Do(s, step))
  {
    match step {
      case Advance(w) => AdvanceKeeps(s, w);
      case Die(w) =>
      case Handle(p) => HandleKeeps(s, p);
      case Take(w) => TakeKeeps(s, w);
      case TakeError(w) => CountsError(s.cfg, s.messages, s.taken, w);
      case Release => ReleaseKeeps(s);
      case GiveUp =>
    }
  }

  // ---------------------------------------------------------------- refinement

  /** Half of each model goes first. */
  lemma HalfGoesFirst(c: Config, w: nat)
    requires ValidConfig(c) && c.crossed && w < 2 * c.tp
    ensures var p := Host(c, w);
            var all := if p == 0 then Range(0, c.tp / 2) else Range(c.tp + c.tp / 2, 2 * c.tp);
            && |all| == c.tp / 2
            && forall v: nat :: v in all <==> v < 2 * c.tp && FirstWave(c, v) && Host(c, v) == p
  {
    hide Range;
    RangeIs(0, c.tp / 2);
    RangeIs(c.tp + c.tp / 2, 2 * c.tp);
  }

  lemma LinedUpTogether(s: State, w: nat)
    requires Inv(s) && Enabled(s, Advance(w)) && s.st[w] == LINED_UP
    ensures PartnersLinedUp(s.cfg, s.st, w)
  {
    hide CountsWorkers, ReleasedInv, TakenIsSent, PartInv, Range;
    assert s.cfg.crossed;
    HalfGoesFirst(s.cfg, w);
    var p := Host(s.cfg, w);
    var all := if p == 0 then Range(0, s.cfg.tp / 2) else Range(s.cfg.tp + s.cfg.tp / 2, 2 * s.cfg.tp);
    forall v | 0 <= v < |s.st| && FirstWave(s.cfg, v) && IsA(s.cfg, v) == IsA(s.cfg, w)
      ensures s.st[v] >= LINED_UP
    {
      FullSet(LinedUp(s.cfg, s.st, p), all, v);
    }
  }

  /** A worker moves in its turn, because its participant has been told to let it. */
  lemma AdvanceInTurn(s: State, w: nat)
    requires Inv(s) && Enabled(s, Advance(w))
    ensures Guard(s.cfg, s.st, w)
  {
    hide CountsWorkers, TakenIsSent, LinedUp, FirstWave;
    var p := Host(s.cfg, w);
    assert PartInv(s.cfg, s.k, p, s.parts[p], s.outbox[p]);
    if s.st[w] == LINED_UP { LinedUpTogether(s, w); }
    assert AllA(s.cfg, s.st, ARMED_SENT) ==> AllA(s.cfg, s.st, WARMED);
    hide All, AllA, AllFirst, PartnersLinedUp;
  }

  lemma StepRefines(s: State, step: Step)
    requires Inv(s) && Enabled(s, step)
    ensures PhaseStep(s.cfg, s.st, Do(s, step).st)
  {
    hide Inv, Guard;
    if step.Advance? { AdvanceInTurn(s, step.w); }
  }

  /** Refinement: along every run the workers go through a run of the phase machine, state by state. */
  lemma {:induction false} Refines(s: State, steps: seq<Step>, s': State) returns (trace: seq<Stages>)
    requires Inv(s) && Reaches(s, steps, s')
    ensures Inv(s') && s'.cfg == s.cfg
    ensures PhaseRun(s.cfg, trace) && trace[0] == s.st && trace[|trace| - 1] == s'.st
    decreases |steps|
  {
    hide Inv, PhaseStep, Enabled;
    if steps == [] {
      trace := [s.st];
    } else {
      StepKeeps(s, steps[0]);
      StepRefines(s, steps[0]);
      var rest := Refines(Do(s, steps[0]), steps[1..], s');
      PhaseRunCons(s.cfg, s.st, rest);
      trace := [s.st] + rest;
    }
  }

  /** Every state of every run is in phase: stopping sets no event. */
  lemma AlwaysInPhase(s: State, steps: seq<Step>, s': State)
    requires Initial(s) && Reaches(s, steps, s')
    ensures InPhase(s'.cfg, s'.st)
  {
    hide Inv, PhaseStep, Reaches, InPhase;
    InitialHolds(s);
    var trace := Refines(s, steps, s');
    PhaseRunKeeps(s.cfg, trace, |trace| - 1);
  }

  /** No participant ever sees a command out of order, however far it lags behind. */
  lemma NoControlError(s: State, steps: seq<Step>, s': State, p: nat)
    requires Initial(s) && Reaches(s, steps, s') && p < |s'.parts|
    ensures |s'.parts| == 2 && !s'.parts[p].failed
  {
    hide Initial, Reaches, CountsWorkers, TakenIsSent, LinedUp, ReleasedInv, StageInv, PhaseRun;
    InitialHolds(s);
    var _ := Refines(s, steps, s');
    assert PartInv(s'.cfg, s'.k, p, s'.parts[p], s'.outbox[p]);
  }

  /** The verdict, whenever it is read. */
  lemma VerdictHolds(s: State, steps: seq<Step>, s': State)
    requires Initial(s) && Reaches(s, steps, s')
    ensures Judge(s'.cfg, s'.messages).DEADLOCK_REPRODUCED? ==>
              && AllFirst(s'.cfg, s'.st, SUBMITTED_SENT) && All(s'.st, ENTERED)
              && Count(s'.messages, MODEL_DONE) == 0 && Count(s'.messages, DONE) == 0
    ensures Judge(s'.cfg, s'.messages).NO_DEADLOCK? || Judge(s'.cfg, s'.messages).NORMAL_CONTROL_PASSED? ==> All(s'.st, FINISHED)
    ensures Count(s'.messages, DONE) <= Count(s'.messages, MODEL_DONE)
  {
    hide Initial, Reaches, TakenIsSent, CountsWorkers, LinedUp, ReleasedInv, StageInv, PartInv, Judge, PhaseRun;
    InitialHolds(s);
    var _ := Refines(s, steps, s');
    VerdictMeans(s'.cfg, s'.messages, s'.st, s'.taken);
    DoneAfterModelDone(s'.cfg, s'.messages, s'.taken);
  }
}
