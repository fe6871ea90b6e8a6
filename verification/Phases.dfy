/**
 The deadlock reproducers' phase machine, and what a coordinator may conclude from counting
 the messages of its workers.

 There are 2 * tp workers: w < tp is rank w of model A, the others are the ranks of model B.
 A worker is described by the last thing it has done.
 */
module Phases {
  import opened Basics

  datatype Config = Config(tp: nat, crossed: bool)

  ghost predicate ValidConfig(c: Config) { c.tp > 0 && c.tp % 2 == 0 }

  const IDLE: nat := 0
  const INIT: nat := 1
  const READY_SENT: nat := 2
  const WARMING: nat := 3
  const WARMED: nat := 4
  const ARMED_SENT: nat := 5
  const LINED_UP: nat := 6
  const ENTERED: nat := 7
  const SUBMITTED_SENT: nat := 8
  const RETURNED: nat := 9
  const FINISHED: nat := 10

  datatype Wave = First | Second | Aligned

  datatype Kind = READY | ARMED | MODEL_ENTER(wave: Wave) | MODEL_SUBMITTED(wave: Wave) | MODEL_DONE | DONE | ERROR

  predicate IsA(c: Config, w: nat) { w < c.tp }

  function RankOf(c: Config, w: nat): nat { if w < c.tp then w else w - c.tp }

  /** The lower half of A and the upper half of B go first. */
  predicate FirstWave(c: Config, w: nat) {
    (IsA(c, w) && RankOf(c, w) < c.tp / 2) || (!IsA(c, w) && RankOf(c, w) >= c.tp / 2)
  }

  function WaveOf(c: Config, w: nat): Wave {
    if !c.crossed then Aligned else if FirstWave(c, w) then First else Second
  }

  // ---------------------------------------------------------------- the abstract machine

  type Stages = seq<nat>

  ghost predicate AllA(c: Config, st: Stages, stage: nat) {
    forall w | 0 <= w < |st| && IsA(c, w) :: st[w] >= stage
  }

  ghost predicate All(st: Stages, stage: nat) {
    forall w | 0 <= w < |st| :: st[w] >= stage
  }

  ghost predicate AllFirst(c: Config, st: Stages, stage: nat) {
    forall w | 0 <= w < |st| && FirstWave(c, w) :: st[w] >= stage
  }

  ghost predicate PartnersLinedUp(c: Config, st: Stages, w: nat) {
    forall v | 0 <= v < |st| && FirstWave(c, v) && IsA(c, v) == IsA(c, w) :: st[v] >= LINED_UP
  }

  function Next(c: Config, w: nat, stage: nat): nat {
    if stage == ARMED_SENT && !WaveOf(c, w).First? then ENTERED else stage + 1
  }

  /** When worker w may take its next step, whatever mechanism makes it wait. */
  ghost predicate Guard(c: Config, st: Stages, w: nat)
    requires w < |st|
  {
    && st[w] < FINISHED
    && (st[w] == IDLE ==> IsA(c, w) || AllA(c, st, READY_SENT))
    && (st[w] == READY_SENT ==> if IsA(c, w) then All(st, READY_SENT) else AllA(c, st, WARMED))
    && (st[w] == ARMED_SENT ==> if WaveOf(c, w).Second? then AllFirst(c, st, SUBMITTED_SENT) else All(st, ARMED_SENT))
    && (st[w] == LINED_UP ==> PartnersLinedUp(c, st, w))
  }

  /** One step of the abstract machine, or none. */
  ghost predicate PhaseStep(c: Config, st: Stages, st': Stages) {
    st' == st || exists w: nat :: w < |st| && Guard(c, st, w) && st' == st[w := Next(c, w, st[w])]
  }

  /** A run of the abstract machine, given by the states it goes through. */
  ghost predicate PhaseRun(c: Config, trace: seq<Stages>) {
    && trace != []
    && forall i | 0 <= i < |trace| - 1 :: PhaseStep(c, trace[i], trace[i + 1])
  }

  ghost predicate Start(c: Config, st: Stages) {
    |st| == 2 * c.tp && forall w | 0 <= w < |st| :: st[w] == IDLE
  }

  lemma PhaseRunCons(c: Config, st: Stages, rest: seq<Stages>)
    requires PhaseRun(c, rest) && PhaseStep(c, st, rest[0])
    ensures PhaseRun(c, [st] + rest)
  {
    hide PhaseStep;
    var trace := [st] + rest;
    forall i | 0 <= i < |trace| - 1
      ensures PhaseStep(c, trace[i], trace[i + 1])
    {
      assert i > 0 ==> trace[i] == rest[i - 1] && trace[i + 1] == rest[i - 1 + 1];
    }
  }

  /** What the phases are for. */
  ghost predicate InPhase(c: Config, st: Stages) {
    && |st| == 2 * c.tp
    && (forall w | 0 <= w < |st| && st[w] >= INIT && !IsA(c, w) :: AllA(c, st, READY_SENT))
    && (forall w | 0 <= w < |st| && st[w] >= WARMING :: All(st, READY_SENT))
    && (forall w | 0 <= w < |st| && st[w] >= WARMING && !IsA(c, w) :: AllA(c, st, WARMED))
    && (forall w | 0 <= w < |st| && st[w] == LINED_UP :: WaveOf(c, w).First?)
    && (forall w | 0 <= w < |st| && st[w] >= LINED_UP :: All(st, ARMED_SENT))
    && (forall w | 0 <= w < |st| && st[w] >= ENTERED && WaveOf(c, w).First? :: PartnersLinedUp(c, st, w))
    && (forall w | 0 <= w < |st| && st[w] >= ENTERED && WaveOf(c, w).Second? :: AllFirst(c, st, SUBMITTED_SENT))
  }

  /** With both waves non-empty, a second wave that may start has a first wave that was armed with it. */
  lemma FirstWaveExists(c: Config, st: Stages)
    requires ValidConfig(c) && |st| == 2 * c.tp
    ensures FirstWave(c, 0)
  {
    assert c.tp >= 2;
  }

  lemma PhaseStepKeeps(c: Config, st: Stages, st': Stages)
    requires ValidConfig(c) && InPhase(c, st) && PhaseStep(c, st, st')
    ensures InPhase(c, st')
  {
    if st' != st {
      var w: nat :| w < |st| && Guard(c, st, w) && st' == st[w := Next(c, w, st[w])];
      Monotone(c, st, st', w);
      FirstWaveExists(c, st);
      assert AllA(c, st, WARMED) ==> st[0] >= WARMED && All(st, READY_SENT);
      assert AllFirst(c, st, SUBMITTED_SENT) ==> st[0] >= SUBMITTED_SENT && All(st, ARMED_SENT);
      hide AllA, All, AllFirst, PartnersLinedUp, FirstWave;
      assert forall v | 0 <= v < |st| && v != w :: st'[v] == st[v];
      assert st'[w] == Next(c, w, st[w]);
    }
  }

  /** Reaching a stage is never undone. */
  lemma Monotone(c: Config, st: Stages, st': Stages, w: nat)
    requires w < |st| && st' == st[w := Next(c, w, st[w])]
    ensures forall stage | AllA(c, st, stage) :: AllA(c, st', stage)
    ensures forall stage | All(st, stage) :: All(st', stage)
    ensures forall stage | AllFirst(c, st, stage) :: AllFirst(c, st', stage)
    ensures forall v | PartnersLinedUp(c, st, v) :: PartnersLinedUp(c, st', v)
  {
  }

  /** Every state of every run of the abstract machine is in phase. */
  lemma {:induction false} PhaseRunKeeps(c: Config, trace: seq<Stages>, i: nat)
    requires ValidConfig(c) && PhaseRun(c, trace) && Start(c, trace[0]) && i < |trace|
    ensures InPhase(c, trace[i])
  {
    if i > 0 {
      PhaseRunKeeps(c, trace, i - 1);
      assert PhaseStep(c, trace[i - 1], trace[i - 1 + 1]);
      PhaseStepKeeps(c, trace[i - 1], trace[i]);
    }
  }

  /** On every run, no warm-up forward of A overlaps one of B, and B builds nothing before A is ready. */
  lemma NoOverlap(c: Config, trace: seq<Stages>, i: nat, a: nat, b: nat)
    requires ValidConfig(c) && PhaseRun(c, trace) && Start(c, trace[0]) && i < |trace| && a < c.tp <= b < |trace[i]|
    ensures |trace[i]| == 2 * c.tp
    ensures !(trace[i][a] == WARMING && trace[i][b] == WARMING)
    ensures trace[i][b] >= INIT ==> trace[i][a] >= READY_SENT
    ensures trace[i][a] >= WARMING ==> trace[i][b] >= READY_SENT
  {
    hide PhaseStep;
    PhaseRunKeeps(c, trace, i);
    var st := trace[i];
    assert st[b] >= WARMING ==> AllA(c, st, WARMED);
    assert st[b] >= INIT ==> AllA(c, st, READY_SENT);
    assert st[a] >= WARMING ==> All(st, READY_SENT);
  }

  /** On every run, a second-wave forward is entered only when every first-wave one has been submitted. */
  lemma SecondAfterFirst(c: Config, trace: seq<Stages>, i: nat, v: nat, w: nat)
    requires ValidConfig(c) && PhaseRun(c, trace) && Start(c, trace[0]) && i < |trace|
    requires v < |trace[i]| && w < |trace[i]| && WaveOf(c, v).First? && WaveOf(c, w).Second?
    ensures trace[i][w] >= ENTERED ==> trace[i][v] >= SUBMITTED_SENT
  {
    hide PhaseStep;
    PhaseRunKeeps(c, trace, i);
    var st := trace[i];
    assert st[w] >= ENTERED ==> AllFirst(c, st, SUBMITTED_SENT);
  }

  // ---------------------------------------------------------------- messages and counts

  /** How many messages a worker at this stage has sent. */
  function SentBy(stage: nat): nat {
    if stage < READY_SENT then 0
    else if stage < ARMED_SENT then 1
    else if stage < ENTERED then 2
    else if stage < SUBMITTED_SENT then 3
    else if stage < RETURNED then 4
    else if stage < FINISHED then 5
    else 6
  }

  /** The stage at which a kind of message has been sent. */
  function StageOf(kind: Kind): nat {
    match kind
    case READY => READY_SENT
    case ARMED => ARMED_SENT
    case MODEL_ENTER(_) => ENTERED
    case MODEL_SUBMITTED(_) => SUBMITTED_SENT
    case MODEL_DONE => RETURNED
    case DONE => FINISHED
    case ERROR => 0
  }

  /** The j-th message of a worker. */
  function KindAt(wave: Wave, j: nat): Kind
    requires j < 6
  {
    [READY, ARMED, MODEL_ENTER(wave), MODEL_SUBMITTED(wave), MODEL_DONE, DONE][j]
  }

  /** Its inverse: where in a worker's messages this kind stands, 6 if it sends none. */
  function PlaceOf(wave: Wave, kind: Kind): nat {
    match kind
    case READY => 0
    case ARMED => 1
    case MODEL_ENTER(v) => if v == wave then 2 else 6
    case MODEL_SUBMITTED(v) => if v == wave then 3 else 6
    case MODEL_DONE => 4
    case DONE => 5
    case ERROR => 6
  }

  /** What the coordinator has been told, in the order it was told. */
  datatype Note = Note(kind: Kind, w: nat)

  function Count(messages: seq<Note>, kind: Kind): nat {
    if messages == [] then 0
    else Count(messages[..|messages| - 1], kind) + if messages[|messages| - 1].kind == kind then 1 else 0
  }

  function CountModel(c: Config, messages: seq<Note>, kind: Kind, a: bool): nat {
    if messages == [] then 0
    else
      var m := messages[|messages| - 1];
      CountModel(c, messages[..|messages| - 1], kind, a) + if m.kind == kind && IsA(c, m.w) == a then 1 else 0
  }

  predicate HasTaken(c: Config, w: nat, taken: nat, kind: Kind) {
    taken <= 6 && PlaceOf(WaveOf(c, w), kind) < taken
  }

  /** The workers from which a message of this kind has been taken. */
  ghost function Heard(c: Config, taken: seq<nat>, kind: Kind): set<nat> {
    set w: nat | w < |taken| && HasTaken(c, w, taken[w], kind)
  }

  ghost function HeardFrom(c: Config, taken: seq<nat>, kind: Kind, a: bool): set<nat> {
    set w: nat | w < |taken| && HasTaken(c, w, taken[w], kind) && IsA(c, w) == a
  }

  /** Counting messages is counting workers: nobody is counted twice. */
  ghost predicate CountsWorkers(c: Config, messages: seq<Note>, taken: seq<nat>) {
    && (forall kind: Kind | !kind.ERROR? :: Count(messages, kind) == |Heard(c, taken, kind)|)
    && (forall kind: Kind, a: bool | !kind.ERROR? :: CountModel(c, messages, kind, a) == |HeardFrom(c, taken, kind, a)|)
  }

  ghost predicate TakenIsSent(st: Stages, taken: seq<nat>) {
    |taken| == |st| && forall w | 0 <= w < |st| :: taken[w] <= SentBy(st[w])
  }

  lemma CountsNothing(c: Config, taken: seq<nat>)
    requires forall w | 0 <= w < |taken| :: taken[w] == 0
    ensures CountsWorkers(c, [], taken)
  {
    forall kind: Kind, a: bool | !kind.ERROR?
      ensures Heard(c, taken, kind) == {} && HeardFrom(c, taken, kind, a) == {}
    {
    }
  }

  /** Taking the next message of w adds w, and only w, to those heard with that kind. */
  lemma HeardGrows(c: Config, taken: seq<nat>, w: nat, kind: Kind, a: bool)
    requires w < |taken| && taken[w] < 6 && !kind.ERROR?
    ensures var taken' := taken[w := taken[w] + 1];
            var added := if KindAt(WaveOf(c, w), taken[w]) == kind then {w} else {};
            && Heard(c, taken', kind) == Heard(c, taken, kind) + added && added !! Heard(c, taken, kind)
            && HeardFrom(c, taken', kind, a) == HeardFrom(c, taken, kind, a) + (if IsA(c, w) == a then added else {})
            && added !! HeardFrom(c, taken, kind, a)
  {
    var taken' := taken[w := taken[w] + 1];
    assert forall v | 0 <= v < |taken| && v != w :: taken'[v] == taken[v];
  }

  lemma CountOne(c: Config, messages: seq<Note>, taken: seq<nat>, w: nat, kind: Kind, a: bool)
    requires w < |taken| && taken[w] < 6 && !kind.ERROR?
    requires Count(messages, kind) == |Heard(c, taken, kind)|
    requires CountModel(c, messages, kind, a) == |HeardFrom(c, taken, kind, a)|
    ensures var m := Note(KindAt(WaveOf(c, w), taken[w]), w);
            && Count(messages + [m], kind) == |Heard(c, taken[w := taken[w] + 1], kind)|
            && CountModel(c, messages + [m], kind, a) == |HeardFrom(c, taken[w := taken[w] + 1], kind, a)|
  {
    hide HasTaken, HeardFrom, Heard, KindAt, WaveOf;
    var m := Note(KindAt(WaveOf(c, w), taken[w]), w);
    assert (messages + [m])[..|messages|] == messages;
    HeardGrows(c, taken, w, kind, a);
  }

  lemma CountsAnother(c: Config, messages: seq<Note>, taken: seq<nat>, w: nat)
    requires CountsWorkers(c, messages, taken) && w < |taken| && taken[w] < 6
    ensures CountsWorkers(c, messages + [Note(KindAt(WaveOf(c, w), taken[w]), w)], taken[w := taken[w] + 1])
  {
    hide HasTaken, HeardFrom, Heard, KindAt, WaveOf, Count, CountModel;
    var m := Note(KindAt(WaveOf(c, w), taken[w]), w);
    forall kind: Kind | !kind.ERROR?
      ensures Count(messages + [m], kind) == |Heard(c, taken[w := taken[w] + 1], kind)|
    {
      CountOne(c, messages, taken, w, kind, true);
    }
    forall kind: Kind, a: bool | !kind.ERROR?
      ensures CountModel(c, messages + [m], kind, a) == |HeardFrom(c, taken[w := taken[w] + 1], kind, a)|
    {
      CountOne(c, messages, taken, w, kind, a);
    }
  }

  lemma CountsError(c: Config, messages: seq<Note>, taken: seq<nat>, w: nat)
    requires CountsWorkers(c, messages, taken)
    ensures CountsWorkers(c, messages + [Note(ERROR, w)], taken)
  {
    hide HasTaken, HeardFrom, Heard;
    var messages' := messages + [Note(ERROR, w)];
    assert messages'[..|messages|] == messages;
    forall kind: Kind, a: bool | !kind.ERROR?
      ensures Count(messages', kind) == Count(messages, kind)
      ensures CountModel(c, messages', kind, a) == CountModel(c, messages, kind, a)
    {
    }
  }

  // ---------------------------------------------------------------- when a count is enough

  ghost function FirstWaveSet(c: Config): set<nat> {
    Range(0, c.tp / 2) + Range(c.tp + c.tp / 2, 2 * c.tp)
  }

  ghost function SecondWaveSet(c: Config): set<nat> {
    Range(c.tp / 2, c.tp + c.tp / 2)
  }

  /** There are exactly tp workers in each wave. */
  lemma WaveSizes(c: Config)
    ensures |FirstWaveSet(c)| == c.tp && |SecondWaveSet(c)| == c.tp
    ensures forall w: nat :: w in FirstWaveSet(c) <==> w < 2 * c.tp && FirstWave(c, w)
    ensures forall w: nat :: w in SecondWaveSet(c) <==> w < 2 * c.tp && !FirstWave(c, w)
  {
    hide Range;
    RangeIs(0, c.tp / 2);
    RangeIs(c.tp + c.tp / 2, 2 * c.tp);
    RangeIs(c.tp / 2, c.tp + c.tp / 2);
    assert Range(0, c.tp / 2) !! Range(c.tp + c.tp / 2, 2 * c.tp);
  }

  /** A kind heard from w was sent by w. */
  lemma HeardMeans(c: Config, st: Stages, taken: seq<nat>, kind: Kind, w: nat)
    requires TakenIsSent(st, taken) && w in Heard(c, taken, kind) && !kind.ERROR?
    ensures w < |st| && st[w] >= StageOf(kind)
  {
  }

  /** tp READYs while only A can be ready: A is ready. */
  lemma ReadyFromA(c: Config, messages: seq<Note>, st: Stages, taken: seq<nat>)
    requires |st| == 2 * c.tp && TakenIsSent(st, taken) && CountsWorkers(c, messages, taken)
    requires Count(messages, READY) >= c.tp
    requires forall w | c.tp <= w < |st| :: st[w] == IDLE
    ensures AllA(c, st, READY_SENT)
  {
    var heard := Heard(c, taken, READY);
    BelowIs(c.tp);
    forall w | w in heard
      ensures w in Below(c.tp)
    {
      HeardMeans(c, st, taken, READY, w);
    }
    forall w | 0 <= w < |st| && IsA(c, w)
      ensures st[w] >= READY_SENT
    {
      FullSet(heard, Below(c.tp), w);
      HeardMeans(c, st, taken, READY, w);
    }
  }

  /** 2 * tp messages of a kind: everyone has sent it. */
  lemma CountAll(c: Config, messages: seq<Note>, st: Stages, taken: seq<nat>, kind: Kind)
    requires |st| == 2 * c.tp && TakenIsSent(st, taken) && CountsWorkers(c, messages, taken) && !kind.ERROR?
    requires Count(messages, kind) >= 2 * c.tp
    ensures All(st, StageOf(kind))
  {
    BelowIs(2 * c.tp);
    forall w | 0 <= w < |st|
      ensures st[w] >= StageOf(kind)
    {
      FullSet(Heard(c, taken, kind), Below(2 * c.tp), w);
      HeardMeans(c, st, taken, kind, w);
    }
  }

  /** tp messages of a kind from one model: all of that model have sent it. */
  lemma CountOfModel(c: Config, messages: seq<Note>, st: Stages, taken: seq<nat>, kind: Kind, a: bool)
    requires |st| == 2 * c.tp && TakenIsSent(st, taken) && CountsWorkers(c, messages, taken) && !kind.ERROR?
    requires CountModel(c, messages, kind, a) >= c.tp
    ensures forall w | 0 <= w < |st| && IsA(c, w) == a :: st[w] >= StageOf(kind)
  {
    var all := if a then Range(0, c.tp) else Range(c.tp, 2 * c.tp);
    RangeIs(0, c.tp);
    RangeIs(c.tp, 2 * c.tp);
    forall w | 0 <= w < |st| && IsA(c, w) == a
      ensures st[w] >= StageOf(kind)
    {
      FullSet(HeardFrom(c, taken, kind, a), all, w);
      assert w in Heard(c, taken, kind);
      HeardMeans(c, st, taken, kind, w);
    }
  }

  /** Only the tp workers of a wave send that wave's messages, so tp of them come from the whole wave. */
  lemma CountWave(c: Config, messages: seq<Note>, st: Stages, taken: seq<nat>, kind: Kind)
    requires |st| == 2 * c.tp && TakenIsSent(st, taken) && CountsWorkers(c, messages, taken)
    requires c.crossed && (kind.MODEL_ENTER? || kind.MODEL_SUBMITTED?) && !kind.wave.Aligned?
    requires Count(messages, kind) >= c.tp
    ensures forall w | 0 <= w < |st| && WaveOf(c, w) == kind.wave :: st[w] >= StageOf(kind)
  {
    var heard := Heard(c, taken, kind);
    var all := if kind.wave.First? then FirstWaveSet(c) else SecondWaveSet(c);
    WaveSizes(c);
    assert forall w | w in heard :: WaveOf(c, w) == kind.wave;
    forall w | 0 <= w < |st| && WaveOf(c, w) == kind.wave
      ensures st[w] >= StageOf(kind)
    {
      FullSet(heard, all, w);
      HeardMeans(c, st, taken, kind, w);
    }
  }

  /** A worker's DONE comes after its MODEL_DONE, so no more of them can have been received. */
  lemma DoneAfterModelDone(c: Config, messages: seq<Note>, taken: seq<nat>)
    requires CountsWorkers(c, messages, taken)
    ensures Count(messages, DONE) <= Count(messages, MODEL_DONE)
  {
    SubsetCard(Heard(c, taken, DONE), Heard(c, taken, MODEL_DONE));
  }

  // ---------------------------------------------------------------- the verdict

  datatype Verdict =
    | DEADLOCK_REPRODUCED
    | NO_DEADLOCK
    | HUNG_AFTER_PROGRESS_INCONCLUSIVE
    | RUNTIME_FAILED
    | NORMAL_CONTROL_PASSED
    | NORMAL_CONTROL_HUNG
    | NORMAL_CONTROL_RUNTIME_FAILED

  /** What is concluded when the last wait is over. */
  function Judge(c: Config, messages: seq<Note>): Verdict {
    if Count(messages, ERROR) > 0 then (if c.crossed then RUNTIME_FAILED else NORMAL_CONTROL_RUNTIME_FAILED)
    else if Count(messages, DONE) >= 2 * c.tp then (if c.crossed then NO_DEADLOCK else NORMAL_CONTROL_PASSED)
    else if !c.crossed then NORMAL_CONTROL_HUNG
    else if Count(messages, MODEL_SUBMITTED(First)) == c.tp && Count(messages, MODEL_ENTER(Second)) == c.tp
            && Count(messages, MODEL_DONE) == 0 then DEADLOCK_REPRODUCED
    else HUNG_AFTER_PROGRESS_INCONCLUSIVE
  }

  /** What a verdict says about the workers, for any way of collecting the messages. */
  lemma VerdictMeans(c: Config, messages: seq<Note>, st: Stages, taken: seq<nat>)
    requires |st| == 2 * c.tp && c.tp > 0 && TakenIsSent(st, taken) && CountsWorkers(c, messages, taken)
    ensures Judge(c, messages).DEADLOCK_REPRODUCED? ==>
              && AllFirst(c, st, SUBMITTED_SENT) && All(st, ENTERED)
              && Count(messages, MODEL_DONE) == 0 && Count(messages, DONE) == 0
    ensures Judge(c, messages).NO_DEADLOCK? || Judge(c, messages).NORMAL_CONTROL_PASSED? ==> All(st, FINISHED)
  {
    DoneAfterModelDone(c, messages, taken);
    match Judge(c, messages) {
      case DEADLOCK_REPRODUCED =>
        CountWave(c, messages, st, taken, MODEL_SUBMITTED(First));
        CountWave(c, messages, st, taken, MODEL_ENTER(Second));
      case NO_DEADLOCK => CountAll(c, messages, st, taken, DONE);
      case NORMAL_CONTROL_PASSED => CountAll(c, messages, st, taken, DONE);
      case _ =>
    }
  }
}
