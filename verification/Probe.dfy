/**
 The operator probe: one coordinator drives `tp` model-B ranks through a list of tasks,
 in lock step, while half of the model-A ranks are held in a collective.

 Ranks report through one message queue and are released by one-shot events.  A queue
 keeps the order of each sender but interleaves senders freely, so every rank has a log
 of what it has sent and a count of how much of it the coordinator has taken.  Any wait
 may time out and any rank may die at any point, with or without an ERROR message.
 */
module Probe {
  import opened Basics

  /** `keys[i]` is the name sent with messages about task i; keys need not be distinct. */
  datatype Config = Config(tp: nat, repeat: nat, keys: seq<string>)

  ghost predicate ValidConfig(c: Config) {
    c.tp > 0 && c.repeat > 0 && |c.keys| > 0 && |c.keys| % c.repeat == 0
  }

  datatype Kind = Notice | READY | SKIPPED | PREPARED | ENTER | DONE | ERROR

  /** `index` is the sender's own task counter; only `kind` and `key` are looked at on receipt. */
  datatype Msg = Msg(kind: Kind, index: nat, key: string)

  datatype Pc =
    | AwaitA
    | Warm(c: nat)
    | Flagged(c: nat)
    | AwaitStart
    | AtTask(i: nat)
    | Gate(i: nat)
    | Building(i: nat)
    | AwaitRun(i: nat)
    | Running(i: nat)
    | Releasing(i: nat)
    | Dead

  datatype Rank = Rank(pc: Pc, log: seq<Msg>, taken: nat)

  datatype APc = ABoot | AWaiting | ACalling | AHeld | ADone | ADead

  datatype ARank = ARank(pc: APc, log: seq<Kind>, taken: nat)

  datatype Status = PASS | SKIP | BLOCKED | SETUP_FAILED | NOT_RUN

  datatype Coord =
    | WaitA(ready: set<nat>)
    | WaitB(ready: set<nat>)
    | WaitCalled
    | Hold
    | Prepare(i: nat)
    | Decide(i: nat)
    | WaitSkipped(i: nat, seen: set<nat>)
    | WaitPrepared(i: nat, seen: set<nat>)
    | Release(i: nat)
    | WaitDone(i: nat, seen: set<nat>)
    | Judge(i: nat, seen: set<nat>, failed: bool)
    | Finished

  /** `failed` holds the cases whose warm-up failed; the other sets and flags are the events. */
  datatype State = State(
    cfg: Config,
    aReady: bool, aStart: bool, bStart: bool, returned: bool,
    called: set<nat>, failed: set<nat>, prepare: set<nat>, run: set<nat>,
    ranks: seq<Rank>, aranks: seq<ARank>, coord: Coord, results: seq<Status>)

  datatype Step =
    | BStep(r: nat, ok: bool)
    | BDie(r: nat, silent: bool)
    | AStep(r: nat)
    | ADie(r: nat, silent: bool)
    | TakeB(r: nat)
    | TakeA(r: nat)
    | TimeOut
    | CoordStep

  ghost predicate WellFormed(s: State) {
    ValidConfig(s.cfg) && |s.ranks| == s.cfg.tp && |s.aranks| == s.cfg.tp
  }

  function Tasks(c: Config): nat { |c.keys| }

  function Cases(c: Config): nat
    requires c.repeat > 0
  {
    |c.keys| / c.repeat
  }

  function CaseOf(c: Config, i: nat): nat
    requires c.repeat > 0
  {
    i / c.repeat
  }

  ghost predicate Initial(s: State) {
    && WellFormed(s)
    && !s.aReady && !s.aStart && !s.bStart && !s.returned
    && s.called == {} && s.failed == {} && s.prepare == {} && s.run == {}
    && (forall r | 0 <= r < |s.ranks| :: s.ranks[r] == Rank(AwaitA, [], 0))
    && (forall r | 0 <= r < |s.aranks| :: s.aranks[r] == ARank(ABoot, [], 0))
    && s.coord == WaitA({}) && s.results == []
  }

  // ---------------------------------------------------------------- ranks

  /** What `model_b` does next; the wait of an event that is not set does nothing. */
  function RankStep(c: Config, aReady: bool, bStart: bool, failed: set<nat>, prepare: set<nat>, run: set<nat>,
                    x: Rank, ok: bool): Rank
    requires c.repeat > 0
  {
    match x.pc
    case AwaitA => if aReady then x.(pc := Warm(0)) else x
    case Warm(k) =>
      if k >= Cases(c) then x.(pc := AwaitStart, log := x.log + [Msg(READY, 0, "-")])
      else if ok then x.(pc := Warm(k + 1), log := x.log + [Msg(Notice, 0, "-")])
      else x.(pc := Flagged(k))
    case Flagged(k) => x.(pc := Warm(k + 1), log := x.log + [Msg(Notice, 0, "-")])
    case AwaitStart => if bStart then x.(pc := AtTask(0)) else x
    case AtTask(i) => if i < |c.keys| && i in prepare then x.(pc := Gate(i)) else x
    case Gate(i) =>
      if i >= |c.keys| then x
      else if CaseOf(c, i) in failed then x.(pc := AtTask(i + 1), log := x.log + [Msg(SKIPPED, i, c.keys[i])])
      else x.(pc := Building(i))
    case Building(i) =>
      if i >= |c.keys| then x else x.(pc := AwaitRun(i), log := x.log + [Msg(PREPARED, i, c.keys[i])])
    case AwaitRun(i) =>
      if i < |c.keys| && i in run then x.(pc := Running(i), log := x.log + [Msg(ENTER, i, c.keys[i])]) else x
    case Running(i) =>
      if i >= |c.keys| then x else x.(pc := Releasing(i), log := x.log + [Msg(DONE, i, c.keys[i])])
    case Releasing(i) => x.(pc := AtTask(i + 1))
    case Dead => x
  }

  /** `model_a`: the first half announces itself and enters the collective; the rest sleeps. */
  function ARankStep(s: State, r: nat): (s': State)
    requires WellFormed(s) && r < |s.aranks|
    ensures WellFormed(s') && s'.cfg == s.cfg && s'.ranks == s.ranks && s'.coord == s.coord && s'.results == s.results
    ensures s' == s.(aranks := s'.aranks, called := s'.called, returned := s'.returned)
  {
    var x := s.aranks[r];
    match x.pc
    case ABoot => s.(aranks := s.aranks[r := x.(pc := AWaiting, log := x.log + [READY])])
    case AWaiting =>
      if s.aStart && r < s.cfg.tp / 2
      then s.(aranks := s.aranks[r := x.(pc := ACalling)], called := s.called + {r}) else s
    case ACalling => s.(aranks := s.aranks[r := x.(pc := AHeld, log := x.log + [ENTER])])
    case AHeld => s.(aranks := s.aranks[r := x.(pc := ADone, log := x.log + [DONE])], returned := true)
    case ADone => s
    case ADead => s
  }

  // ---------------------------------------------------------------- coordinator

  predicate Waits(c: Coord) {
    c.WaitA? || c.WaitB? || c.WaitSkipped? || c.WaitPrepared? || c.WaitDone?
  }

  /** The ranks a wait has heard from. */
  function Heard(c: Coord): set<nat> {
    match c
    case WaitA(x) => x
    case WaitB(x) => x
    case WaitSkipped(_, x) => x
    case WaitPrepared(_, x) => x
    case WaitDone(_, x) => x
    case _ => {}
  }

  /** `mark_not_run`, for the results list. */
  function Padded(results: seq<Status>, n: nat): (r: seq<Status>)
    requires |results| <= n
    ensures |r| == n && r[..|results|] == results
    ensures forall k | |results| <= k < n :: r[k] == NOT_RUN
  {
    results + seq(n - |results|, _ => NOT_RUN)
  }

  /** Append one more result and fill up with NOT_RUN. */
  function Stop(s: State, status: Status): (s': State)
    ensures s'.cfg == s.cfg && s'.ranks == s.ranks && s'.aranks == s.aranks && s'.failed == s.failed
  {
    if |s.results| < Tasks(s.cfg)
    then s.(coord := Finished, results := Padded(s.results + [status], Tasks(s.cfg)))
    else s.(coord := Finished)
  }

  /** Record the result of task i and go on to the next one. */
  function Proceed(s: State, i: nat, status: Status): (s': State)
    ensures s'.cfg == s.cfg && s'.ranks == s.ranks && s'.aranks == s.aranks && s'.failed == s.failed
  {
    s.(coord := if i + 1 < Tasks(s.cfg) then Prepare(i + 1) else Finished, results := s.results + [status])
  }

  /** An ERROR ends the wait; otherwise the wanted message of the wanted role counts once per rank. */
  function OnMessage(s: State, fromB: bool, r: nat, kind: Kind, key: string): (s': State)
    ensures s'.cfg == s.cfg && s'.ranks == s.ranks && s'.aranks == s.aranks && s'.failed == s.failed
  {
    if kind == ERROR then
      if s.coord.WaitDone? then s.(coord := Judge(s.coord.i, s.coord.seen, true)) else Stop(s, SETUP_FAILED)
    else
      match s.coord
      case WaitA(x) => if !fromB && kind == READY then s.(coord := WaitA(x + {r})) else s
      case WaitB(x) => if fromB && kind == READY then s.(coord := WaitB(x + {r})) else s
      case WaitSkipped(i, x) => if fromB && kind == SKIPPED && KeyIs(s.cfg, i, key) then s.(coord := WaitSkipped(i, x + {r})) else s
      case WaitPrepared(i, x) => if fromB && kind == PREPARED && KeyIs(s.cfg, i, key) then s.(coord := WaitPrepared(i, x + {r})) else s
      case WaitDone(i, x) => if fromB && kind == DONE && KeyIs(s.cfg, i, key) then s.(coord := WaitDone(i, x + {r})) else s
      case _ => s
  }

  predicate KeyIs(c: Config, i: nat, key: string) { i < |c.keys| && c.keys[i] == key }

  function OnTimeOut(s: State): (s': State)
    ensures s'.cfg == s.cfg && s'.ranks == s.ranks && s'.aranks == s.aranks && s'.failed == s.failed
  {
    match s.coord
    case WaitDone(i, x) => s.(coord := Judge(i, x, false))
    case WaitA(_) => Stop(s, SETUP_FAILED)
    case WaitB(_) => Stop(s, SETUP_FAILED)
    case WaitCalled => Stop(s, SETUP_FAILED)
    case WaitSkipped(_, _) => Stop(s, SETUP_FAILED)
    case WaitPrepared(_, _) => Stop(s, SETUP_FAILED)
    case _ => s
  }

  /** The coordinator's own actions, and the end of a wait that has heard from everyone. */
  function Coordinate(s: State): (s': State)
    requires WellFormed(s)
    ensures s'.cfg == s.cfg && s'.ranks == s.ranks && s'.aranks == s.aranks && s'.failed == s.failed
  {
    match s.coord
    case WaitA(x) => if |x| >= s.cfg.tp then s.(aReady := true, coord := WaitB({})) else s
    case WaitB(x) => if |x| >= s.cfg.tp then s.(aStart := true, coord := WaitCalled) else s
    case WaitCalled => if (forall r | 0 <= r < s.cfg.tp / 2 :: r in s.called) then s.(coord := Hold) else s
    case Hold => if s.returned then Stop(s, SETUP_FAILED) else s.(bStart := true, coord := Prepare(0))
    case Prepare(i) => s.(prepare := s.prepare + {i}, coord := Decide(i))
    case Decide(i) => s.(coord := if CaseOf(s.cfg, i) in s.failed then WaitSkipped(i, {}) else WaitPrepared(i, {}))
    case WaitSkipped(i, x) => if |x| >= s.cfg.tp then Proceed(s, i, SKIP) else s
    case WaitPrepared(i, x) => if |x| >= s.cfg.tp then s.(coord := Release(i)) else s
    case Release(i) => s.(run := s.run + {i}, coord := WaitDone(i, {}))
    case WaitDone(i, x) => if |x| >= s.cfg.tp then s.(coord := Judge(i, x, false)) else s
    case Judge(i, x, bad) =>
      if bad || s.returned then Stop(s, SETUP_FAILED)
      else if |x| < s.cfg.tp then Stop(s, BLOCKED)
      else Proceed(s, i, PASS)
    case Finished => s
  }

  predicate Enabled(s: State, step: Step) {
    match step
    case BStep(r, _) => r < |s.ranks|
    case BDie(r, _) => r < |s.ranks|
    case AStep(r) => r < |s.aranks|
    case ADie(r, _) => r < |s.aranks|
    case TakeB(r) => r < |s.ranks| && s.ranks[r].taken < |s.ranks[r].log| && Waits(s.coord) && |Heard(s.coord)| < s.cfg.tp
    case TakeA(r) => r < |s.aranks| && s.aranks[r].taken < |s.aranks[r].log| && Waits(s.coord) && |Heard(s.coord)| < s.cfg.tp
    case TimeOut => Waits(s.coord) || s.coord.WaitCalled?
    case CoordStep => true
  }

  function Do(s: State, step: Step): (s': State)
    requires WellFormed(s) && Enabled(s, step)
    ensures WellFormed(s') && s'.cfg == s.cfg
  {
    match step
    case BStep(r, ok) =>
      var x := s.ranks[r];
      var y := RankStep(s.cfg, s.aReady, s.bStart, s.failed, s.prepare, s.run, x, ok);
      s.(ranks := s.ranks[r := y], failed := if y.pc.Flagged? then s.failed + {y.pc.c} else s.failed)
    case BDie(r, silent) =>
      var x := s.ranks[r];
      if x.pc.Dead? then s
      else s.(ranks := s.ranks[r := x.(pc := Dead, log := if silent then x.log else x.log + [Msg(ERROR, 0, "-")])])
    case AStep(r) => ARankStep(s, r)
    case ADie(r, silent) =>
      var x := s.aranks[r];
      if x.pc.ADead? then s
      else s.(aranks := s.aranks[r := x.(pc := ADead, log := if silent then x.log else x.log + [ERROR])])
    case TakeB(r) =>
      var x := s.ranks[r];
      var m := x.log[x.taken];
      OnMessage(s.(ranks := s.ranks[r := x.(taken := x.taken + 1)]), true, r, m.kind, m.key)
    case TakeA(r) =>
      var x := s.aranks[r];
      OnMessage(s.(aranks := s.aranks[r := x.(taken := x.taken + 1)]), false, r, x.log[x.taken], "-")
    case TimeOut => OnTimeOut(s)
    case CoordStep => Coordinate(s)
  }

  ghost predicate Reaches(s: State, steps: seq<Step>, s': State)
    requires WellFormed(s)
    decreases |steps|
  {
    if steps == [] then s' == s
    else Enabled(s, steps[0]) && Reaches(Do(s, steps[0]), steps[1..], s')
  }

  // ---------------------------------------------------------------- order of a rank's messages

  /** The place of a message in the order a rank must send them; only notices may repeat. */
  function Place(m: Msg): nat {
    match m.kind
    case Notice => 0
    case READY => 1
    case PREPARED => 4 * m.index + 2
    case ENTER => 4 * m.index + 3
    case DONE => 4 * m.index + 4
    case SKIPPED => 4 * m.index + 4
    case ERROR => 0
  }

  predicate About(m: Msg) { m.kind.SKIPPED? || m.kind.PREPARED? || m.kind.ENTER? || m.kind.DONE? }

  /** Everything a rank has sent lies strictly before this place. */
  function Bound(pc: Pc): nat {
    match pc
    case AwaitA => 1
    case Warm(_) => 1
    case Flagged(_) => 1
    case AwaitStart => 2
    case AtTask(i) => 4 * i + 2
    case Gate(i) => 4 * i + 2
    case Building(i) => 4 * i + 2
    case AwaitRun(i) => 4 * i + 3
    case Running(i) => 4 * i + 4
    case Releasing(i) => 4 * i + 5
    case Dead => 0
  }

  ghost predicate Sent(log: seq<Msg>, kind: Kind, i: nat) {
    exists p :: 0 <= p < |log| && log[p].kind == kind && log[p].index == i
  }

  /** Task i is over for this rank. */
  ghost predicate Settled(log: seq<Msg>, i: nat) { Sent(log, DONE, i) || Sent(log, SKIPPED, i) }

  ghost predicate SettledBelow(log: seq<Msg>, i: nat) {
    forall j | 0 <= j < i :: Settled(log, j)
  }

  /** What one message says about the events and about the messages before it. */
  ghost predicate MsgInv(c: Config, failed: set<nat>, prepare: set<nat>, run: set<nat>, log: seq<Msg>, m: Msg)
    requires c.repeat > 0
  {
    && (m.kind.READY? ==> m.index == 0)
    && (About(m) ==>
          && KeyIs(c, m.index, m.key)
          && m.index in prepare
          && SettledBelow(log, m.index)
          && (m.kind.SKIPPED? <==> CaseOf(c, m.index) in failed)
          && (m.kind.ENTER? || m.kind.DONE? ==> m.index in run))
  }

  ghost predicate LogOrdered(log: seq<Msg>) {
    && (forall a, b | 0 <= a < b < |log| && log[b].kind != ERROR :: Place(log[a]) < Place(log[b]) || Place(log[a]) == Place(log[b]) == 0)
    && (forall a | 0 <= a < |log| - 1 :: log[a].kind != ERROR)
  }

  ghost predicate PcInv(c: Config, failed: set<nat>, prepare: set<nat>, run: set<nat>, x: Rank)
    requires c.repeat > 0
  {
    match x.pc
    case AtTask(i) => SettledBelow(x.log, i)
    case Gate(i) => SettledBelow(x.log, i) && i in prepare
    case Building(i) => SettledBelow(x.log, i) && i in prepare && CaseOf(c, i) !in failed
    case AwaitRun(i) => SettledBelow(x.log, i) && i in prepare && CaseOf(c, i) !in failed
    case Running(i) => SettledBelow(x.log, i) && i in prepare && CaseOf(c, i) !in failed && i in run
    case Releasing(i) => SettledBelow(x.log, i + 1)
    case _ => true
  }

  predicate Warming(pc: Pc) { pc.AwaitA? || pc.Warm? || pc.Flagged? }

  ghost predicate RankInv(c: Config, failed: set<nat>, prepare: set<nat>, run: set<nat>, x: Rank)
    requires c.repeat > 0
  {
    && x.taken <= |x.log|
    && LogOrdered(x.log)
    && (!x.pc.Dead? ==> forall a | 0 <= a < |x.log| :: Place(x.log[a]) < Bound(x.pc) && x.log[a].kind != ERROR)
    && (forall a | 0 <= a < |x.log| :: MsgInv(c, failed, prepare, run, x.log, x.log[a]))
    && PcInv(c, failed, prepare, run, x)
  }

  lemma SentGrows(log: seq<Msg>, m: Msg, kind: Kind, i: nat)
    requires Sent(log, kind, i) || (m.kind == kind && m.index == i)
    ensures Sent(log + [m], kind, i)
  {
    if m.kind == kind && m.index == i {
      assert (log + [m])[|log|] == m;
    } else {
      var p :| 0 <= p < |log| && log[p].kind == kind && log[p].index == i;
      assert (log + [m])[p] == log[p];
    }
  }

  lemma SettledGrows(log: seq<Msg>, m: Msg, i: nat)
    requires SettledBelow(log, i)
    ensures SettledBelow(log + [m], i)
  {
    forall j | 0 <= j < i
      ensures Settled(log + [m], j)
    {
      assert Settled(log, j);
      if Sent(log, DONE, j) { SentGrows(log, m, DONE, j); } else { SentGrows(log, m, SKIPPED, j); }
    }
  }

  /** Sending the next message in order keeps the log in order. */
  lemma SendKeeps(c: Config, failed: set<nat>, prepare: set<nat>, run: set<nat>, x: Rank, m: Msg, pc: Pc)
    requires c.repeat > 0 && RankInv(c, failed, prepare, run, x) && !x.pc.Dead?
    requires m.kind.ERROR? || Place(m) >= Bound(x.pc) || (m.kind.Notice? && Warming(x.pc))
    requires pc.Dead? || (!m.kind.ERROR? && Place(m) < Bound(pc) && Bound(x.pc) <= Bound(pc))
    requires MsgInv(c, failed, prepare, run, x.log, m)
    requires PcInv(c, failed, prepare, run, x.(pc := pc, log := x.log + [m]))
    ensures RankInv(c, failed, prepare, run, x.(pc := pc, log := x.log + [m]))
  {
    hide PcInv;
    var log' := x.log + [m];
    forall a | 0 <= a < |log'|
      ensures MsgInv(c, failed, prepare, run, log', log'[a])
    {
      if About(log'[a]) { SettledGrows(x.log, m, log'[a].index); }
    }
  }

  lemma MoveKeeps(c: Config, failed: set<nat>, prepare: set<nat>, run: set<nat>, x: Rank, pc: Pc)
    requires c.repeat > 0 && RankInv(c, failed, prepare, run, x) && !x.pc.Dead?
    requires pc.Dead? || Bound(x.pc) <= Bound(pc)
    requires PcInv(c, failed, prepare, run, x.(pc := pc))
    ensures RankInv(c, failed, prepare, run, x.(pc := pc))
  {
    hide PcInv, LogOrdered, MsgInv;
  }

  /** Task i is settled by its last message. */
  lemma SettleOne(log: seq<Msg>, m: Msg, i: nat)
    requires SettledBelow(log, i) && m.index == i && (m.kind.DONE? || m.kind.SKIPPED?)
    ensures SettledBelow(log + [m], i + 1)
  {
    SettledGrows(log, m, i);
    SentGrows(log, m, m.kind, i);
  }

  /** A rank's step keeps its invariant while the failed set does not move. */
  lemma RankStepKeeps(c: Config, aReady: bool, bStart: bool, failed: set<nat>, prepare: set<nat>, run: set<nat>,
                      x: Rank, ok: bool)
    requires c.repeat > 0 && RankInv(c, failed, prepare, run, x)
    ensures RankInv(c, failed, prepare, run, RankStep(c, aReady, bStart, failed, prepare, run, x, ok))
  {
    var y := RankStep(c, aReady, bStart, failed, prepare, run, x, ok);
    assert PcInv(c, failed, prepare, run, x);
    hide RankInv, SettledBelow;
    if y == x {
    } else if y.log == x.log {
      assert y == x.(pc := y.pc);
      MoveKeeps(c, failed, prepare, run, x, y.pc);
    } else {
      var m := y.log[|x.log|];
      assert y == x.(pc := y.pc, log := x.log + [m]);
      if x.pc.Gate? || x.pc.Running? {
        SettleOne(x.log, m, x.pc.i);
      } else if x.pc.Building? || x.pc.AwaitRun? {
        SettledGrows(x.log, m, x.pc.i);
      }
      SendKeeps(c, failed, prepare, run, x, m, y.pc);
    }
  }

  // ---------------------------------------------------------------- global invariant

  ghost predicate AllSent(ranks: seq<Rank>, kind: Kind, i: nat) {
    forall r | 0 <= r < |ranks| :: Sent(ranks[r].log, kind, i)
  }

  /** Whatever the coordinator has not taken from this rank lies at `place` or later. */
  ghost predicate UnreadFrom(x: Rank, place: nat) {
    forall a | x.taken <= a < |x.log| :: x.log[a].kind.ERROR? || Place(x.log[a]) >= place
  }

  ghost predicate AllUnreadFrom(ranks: seq<Rank>, place: nat) {
    forall r | 0 <= r < |ranks| :: UnreadFrom(ranks[r], place)
  }

  /** The ranks in `seen` have sent the wanted message of task i, and it has been taken. */
  ghost predicate SeenInv(ranks: seq<Rank>, seen: set<nat>, kind: Kind, i: nat) {
    forall r | r in seen :: r < |ranks| && Sent(ranks[r].log, kind, i) && UnreadFrom(ranks[r], LastPlace(kind, i) + 1)
  }

  function LastPlace(kind: Kind, i: nat): nat { Place(Msg(kind, i, "")) }

  ghost predicate PrepareIs(prepare: set<nat>, i: nat) {
    forall j: nat :: j in prepare <==> j < i
  }

  /** The results so far: one per finished task, SKIP exactly for the cases that failed to warm up. */
  ghost predicate ResultsInv(c: Config, failed: set<nat>, results: seq<Status>, ranks: seq<Rank>)
    requires c.repeat > 0
  {
    forall j | 0 <= j < |results| ::
      && (results[j].PASS? ==> AllSent(ranks, DONE, j) && CaseOf(c, j) !in failed)
      && (results[j].SKIP? ==> AllSent(ranks, SKIPPED, j) && CaseOf(c, j) in failed)
      && (results[j].BLOCKED? ==> AllSent(ranks, PREPARED, j) && CaseOf(c, j) !in failed)
  }

  predicate Good(r: Status) { r.PASS? || r.SKIP? }

  ghost predicate GoodSoFar(c: Config, results: seq<Status>, i: nat) {
    && |results| == i < Tasks(c)
    && forall j | 0 <= j < i :: Good(results[j])
  }

  ghost predicate RunInv(run: set<nat>, ranks: seq<Rank>) {
    forall j | j in run :: AllSent(ranks, PREPARED, j)
  }

  /** (PASS or SKIPPED)*, then at most one BLOCKED or SETUP_FAILED, then only NOT_RUN. */
  ghost predicate Shape(results: seq<Status>) {
    exists k :: 0 <= k <= |results| && ShapeAt(results, k)
  }

  ghost predicate ShapeAt(results: seq<Status>, k: nat)
    requires k <= |results|
  {
    && (forall j | 0 <= j < k :: Good(results[j]))
    && (k < |results| ==> results[k].BLOCKED? || results[k].SETUP_FAILED?)
    && (forall j | k < j < |results| :: results[j].NOT_RUN?)
  }

  ghost predicate Early(s: State) {
    !s.bStart && s.prepare == {} && s.run == {} && s.results == []
  }

  /** Task i is being worked on; all earlier ones are finished everywhere. */
  ghost predicate Working(c: Config, results: seq<Status>, prepare: set<nat>, ranks: seq<Rank>, i: nat, prepared: nat) {
    GoodSoFar(c, results, i) && AllSent(ranks, READY, 0) && PrepareIs(prepare, prepared) && AllUnreadFrom(ranks, 4 * i + 2)
  }

  ghost predicate CoordInv(s: State)
    requires s.cfg.repeat > 0
  {
    match s.coord
    case WaitA(_) => Early(s)
    case WaitB(x) => Early(s) && SeenInv(s.ranks, x, READY, 0)
    case WaitCalled => Early(s) && AllSent(s.ranks, READY, 0) && AllUnreadFrom(s.ranks, 2)
    case Hold => Early(s) && AllSent(s.ranks, READY, 0) && AllUnreadFrom(s.ranks, 2)
    case Prepare(i) => Working(s.cfg, s.results, s.prepare, s.ranks, i, i)
    case Decide(i) => Working(s.cfg, s.results, s.prepare, s.ranks, i, i + 1)
    case WaitSkipped(i, x) =>
      && Working(s.cfg, s.results, s.prepare, s.ranks, i, i + 1)
      && CaseOf(s.cfg, i) in s.failed && SeenInv(s.ranks, x, SKIPPED, i)
    case WaitPrepared(i, x) =>
      && Working(s.cfg, s.results, s.prepare, s.ranks, i, i + 1)
      && CaseOf(s.cfg, i) !in s.failed && SeenInv(s.ranks, x, PREPARED, i)
    case Release(i) =>
      && Working(s.cfg, s.results, s.prepare, s.ranks, i, i + 1)
      && CaseOf(s.cfg, i) !in s.failed && AllSent(s.ranks, PREPARED, i)
    case WaitDone(i, x) =>
      && Working(s.cfg, s.results, s.prepare, s.ranks, i, i + 1)
      && CaseOf(s.cfg, i) !in s.failed && AllSent(s.ranks, PREPARED, i) && SeenInv(s.ranks, x, DONE, i)
    case Judge(i, x, _) =>
      && Working(s.cfg, s.results, s.prepare, s.ranks, i, i + 1)
      && CaseOf(s.cfg, i) !in s.failed && AllSent(s.ranks, PREPARED, i) && SeenInv(s.ranks, x, DONE, i)
    case Finished => |s.results| == Tasks(s.cfg) && Shape(s.results)
  }

  ghost predicate Inv(s: State) {
    && WellFormed(s)
    && (forall r | 0 <= r < |s.ranks| :: RankInv(s.cfg, s.failed, s.prepare, s.run, s.ranks[r]))
    && (s.prepare != {} ==> AllSent(s.ranks, READY, 0))
    && RunInv(s.run, s.ranks)
    && ResultsInv(s.cfg, s.failed, s.results, s.ranks)
    && CoordInv(s)
  }

  // ---------------------------------------------------------------- a rank acts

  /** Before any task is prepared the failed set may still grow. */
  lemma FailedMayGrow(c: Config, failed: set<nat>, failed': set<nat>, run: set<nat>, x: Rank)
    requires c.repeat > 0 && RankInv(c, failed, {}, run, x)
    ensures RankInv(c, failed', {}, run, x)
  {
    forall a | 0 <= a < |x.log|
      ensures MsgInv(c, failed', {}, run, x.log, x.log[a])
    {
      assert MsgInv(c, failed, {}, run, x.log, x.log[a]);
    }
  }

  /** Once a message has been sent, everything the rank sends later comes after it. */
  lemma AppendedLater(log: seq<Msg>, m: Msg, kind: Kind, i: nat)
    requires LogOrdered(log + [m]) && Sent(log, kind, i) && !kind.Notice? && !kind.ERROR?
    ensures m.kind.ERROR? || Place(m) > LastPlace(kind, i)
  {
    var p :| 0 <= p < |log| && log[p].kind == kind && log[p].index == i;
    assert (log + [m])[p] == log[p] && (log + [m])[|log|] == m;
  }

  /** What is still true of a rank after it has sent one more message (or none). */
  ghost predicate Extends(x: Rank, y: Rank) {
    y.taken == x.taken && LogOrdered(y.log) && (y.log == x.log || (|y.log| == |x.log| + 1 && y.log[..|x.log|] == x.log))
  }

  lemma ExtendSent(x: Rank, y: Rank, kind: Kind, i: nat)
    requires Extends(x, y) && Sent(x.log, kind, i)
    ensures Sent(y.log, kind, i)
  {
    var p :| 0 <= p < |x.log| && x.log[p].kind == kind && x.log[p].index == i;
    assert y.log[p] == x.log[p] by { if y.log != x.log { assert y.log[..|x.log|][p] == y.log[p]; } }
  }

  lemma ExtendUnread(x: Rank, y: Rank, place: nat, kind: Kind, i: nat)
    requires Extends(x, y) && UnreadFrom(x, place) && Sent(x.log, kind, i) && !kind.Notice? && !kind.ERROR?
    requires forall m: Msg :: Place(m) > LastPlace(kind, i) ==> Place(m) >= place
    ensures UnreadFrom(y, place)
  {
    if y.log != x.log {
      var m := y.log[|x.log|];
      assert y.log == x.log + [m];
      AppendedLater(x.log, m, kind, i);
    }
  }

  /** A task that is finished everywhere bounds what can still arrive. */
  lemma WorkingUnread(s: State, i: nat, prepared: nat, r: nat, y: Rank)
    requires s.cfg.repeat > 0 && Working(s.cfg, s.results, s.prepare, s.ranks, i, prepared) && ResultsInv(s.cfg, s.failed, s.results, s.ranks)
    requires r < |s.ranks| && Extends(s.ranks[r], y)
    ensures UnreadFrom(y, 4 * i + 2)
  {
    hide Sent, UnreadFrom, Extends;
    if i == 0 {
      ExtendUnread(s.ranks[r], y, 2, READY, 0);
    } else if s.results[i - 1].PASS? {
      ExtendUnread(s.ranks[r], y, 4 * i + 2, DONE, i - 1);
    } else {
      assert Good(s.results[i - 1]);
      ExtendUnread(s.ranks[r], y, 4 * i + 2, SKIPPED, i - 1);
    }
  }

  lemma ExtendSeen(ranks: seq<Rank>, r: nat, y: Rank, seen: set<nat>, kind: Kind, i: nat)
    requires r < |ranks| && Extends(ranks[r], y) && SeenInv(ranks, seen, kind, i) && !kind.Notice? && !kind.ERROR?
    ensures SeenInv(ranks[r := y], seen, kind, i)
  {
    hide Sent, UnreadFrom, Extends;
    if r in seen {
      ExtendSent(ranks[r], y, kind, i);
      ExtendUnread(ranks[r], y, LastPlace(kind, i) + 1, kind, i);
    }
  }

  lemma ExtendAllSent(ranks: seq<Rank>, r: nat, y: Rank, kind: Kind, i: nat)
    requires r < |ranks| && Extends(ranks[r], y) && AllSent(ranks, kind, i)
    ensures AllSent(ranks[r := y], kind, i)
  {
    hide Sent, Extends;
    ExtendSent(ranks[r], y, kind, i);
  }

  lemma ExtendWorking(s: State, r: nat, y: Rank, i: nat, prepared: nat)
    requires s.cfg.repeat > 0 && Working(s.cfg, s.results, s.prepare, s.ranks, i, prepared) && ResultsInv(s.cfg, s.failed, s.results, s.ranks)
    requires r < |s.ranks| && Extends(s.ranks[r], y)
    ensures Working(s.cfg, s.results, s.prepare, s.ranks[r := y], i, prepared)
  {
    hide Sent, UnreadFrom, Extends;
    WorkingUnread(s, i, prepared, r, y);
    ExtendAllSent(s.ranks, r, y, READY, 0);
  }

  lemma ExtendCoord(s: State, r: nat, y: Rank)
    requires Inv(s) && r < |s.ranks| && Extends(s.ranks[r], y)
    ensures CoordInv(s.(ranks := s.ranks[r := y]))
  {
    hide RankInv, Sent, UnreadFrom, Extends, Shape, Working, SeenInv, ResultsInv, RunInv, AllSent;
    match s.coord
    case WaitA(_) =>
    case WaitB(x) => ExtendSeen(s.ranks, r, y, x, READY, 0);
    case WaitCalled => ReadyUnread(s, r, y);
    case Hold => ReadyUnread(s, r, y);
    case Prepare(i) => ExtendWorking(s, r, y, i, i);
    case Decide(i) => ExtendWorking(s, r, y, i, i + 1);
    case WaitSkipped(i, x) => ExtendWorking(s, r, y, i, i + 1); ExtendSeen(s.ranks, r, y, x, SKIPPED, i);
    case WaitPrepared(i, x) => ExtendWorking(s, r, y, i, i + 1); ExtendSeen(s.ranks, r, y, x, PREPARED, i);
    case Release(i) => ExtendWorking(s, r, y, i, i + 1); ExtendAllSent(s.ranks, r, y, PREPARED, i);
    case WaitDone(i, x) =>
      ExtendWorking(s, r, y, i, i + 1); ExtendSeen(s.ranks, r, y, x, DONE, i); ExtendAllSent(s.ranks, r, y, PREPARED, i);
    case Judge(i, x, _) =>
      ExtendWorking(s, r, y, i, i + 1); ExtendSeen(s.ranks, r, y, x, DONE, i); ExtendAllSent(s.ranks, r, y, PREPARED, i);
    case Finished =>
  }

  lemma ReadyUnread(s: State, r: nat, y: Rank)
    requires AllSent(s.ranks, READY, 0) && AllUnreadFrom(s.ranks, 2) && r < |s.ranks| && Extends(s.ranks[r], y)
    ensures var s' := s.(ranks := s.ranks[r := y]); AllSent(s'.ranks, READY, 0) && AllUnreadFrom(s'.ranks, 2)
  {
    hide Sent, UnreadFrom, Extends;
    ExtendAllSent(s.ranks, r, y, READY, 0);
    ExtendUnread(s.ranks[r], y, 2, READY, 0);
  }

  /** Replacing rank r by one that has sent more changes nothing the coordinator relies on. */
  lemma ExtendKeeps(s: State, r: nat, y: Rank)
    requires Inv(s) && r < |s.ranks| && Extends(s.ranks[r], y)
    requires RankInv(s.cfg, s.failed, s.prepare, s.run, y)
    ensures Inv(s.(ranks := s.ranks[r := y]))
  {
    hide RankInv, Sent, UnreadFrom, Extends, CoordInv, AllSent;
    var s' := s.(ranks := s.ranks[r := y]);
    forall kind, i | AllSent(s.ranks, kind, i)
      ensures AllSent(s'.ranks, kind, i)
    {
      ExtendAllSent(s.ranks, r, y, kind, i);
    }
    ExtendCoord(s, r, y);
  }

  /** A failing warm-up: nobody has been asked to prepare anything yet. */
  lemma FlagKeeps(s: State, r: nat, y: Rank, k: nat)
    requires Inv(s) && r < |s.ranks| && s.ranks[r].pc.Warm? && y == s.ranks[r].(pc := Flagged(k))
    requires RankInv(s.cfg, s.failed, s.prepare, s.run, y)
    ensures Inv(s.(ranks := s.ranks[r := y], failed := s.failed + {k}))
  {
    assert !Sent(s.ranks[r].log, READY, 0);
    assert s.prepare == {};
    forall j | 0 <= j < |s.results|
      ensures !s.results[j].PASS? && !s.results[j].SKIP? && !s.results[j].BLOCKED?
    {
      NothingSent(s, r, j);
    }
    hide Sent, CoordInv, AllSent;
    ExtendKeeps(s, r, y);
    var s1 := s.(ranks := s.ranks[r := y]);
    var s' := s1.(failed := s.failed + {k});
    forall q | 0 <= q < |s1.ranks|
      ensures RankInv(s'.cfg, s'.failed, s'.prepare, s'.run, s'.ranks[q])
    {
      FailedMayGrow(s.cfg, s.failed, s'.failed, s.run, s1.ranks[q]);
    }
    assert ResultsInv(s'.cfg, s'.failed, s'.results, s'.ranks);
    FlagCoord(s1, s', r);
  }

  lemma FlagCoord(s: State, s': State, r: nat)
    requires s.cfg.repeat > 0 && CoordInv(s) && s' == s.(failed := s'.failed) && r < |s.ranks|
    requires !Sent(s.ranks[r].log, READY, 0)
    ensures CoordInv(s')
  {
    hide Sent, UnreadFrom, Shape;
  }

  lemma NothingSent(s: State, r: nat, j: nat)
    requires Inv(s) && r < |s.ranks| && s.prepare == {}
    ensures !Sent(s.ranks[r].log, DONE, j) && !Sent(s.ranks[r].log, SKIPPED, j) && !Sent(s.ranks[r].log, PREPARED, j)
  {
    hide CoordInv;
    var x := s.ranks[r];
    forall a | 0 <= a < |x.log|
      ensures !About(x.log[a])
    {
      assert MsgInv(s.cfg, s.failed, s.prepare, s.run, x.log, x.log[a]);
    }
  }

  lemma BStepKeeps(s: State, r: nat, ok: bool)
    requires Inv(s) && r < |s.ranks|
    ensures Inv(Do(s, BStep(r, ok)))
  {
    hide CoordInv, ResultsInv, RunInv, AllSent, LogOrdered, MsgInv, PcInv;
    var x := s.ranks[r];
    var y := RankStep(s.cfg, s.aReady, s.bStart, s.failed, s.prepare, s.run, x, ok);
    RankStepKeeps(s.cfg, s.aReady, s.bStart, s.failed, s.prepare, s.run, x, ok);
    if y.pc.Flagged? {
      FlagKeeps(s, r, y, y.pc.c);
    } else {
      assert y.log == x.log || y.log[..|x.log|] == x.log;
      ExtendKeeps(s, r, y);
    }
  }

  lemma BDieKeeps(s: State, r: nat, silent: bool)
    requires Inv(s) && r < |s.ranks|
    ensures Inv(Do(s, BDie(r, silent)))
  {
    hide CoordInv, ResultsInv, RunInv, AllSent, LogOrdered, MsgInv;
    var x := s.ranks[r];
    if !x.pc.Dead? {
      if silent {
        MoveKeeps(s.cfg, s.failed, s.prepare, s.run, x, Dead);
        ExtendKeeps(s, r, x.(pc := Dead));
      } else {
        var m := Msg(ERROR, 0, "-");
        ErrorMeansNothing(s.cfg, s.failed, s.prepare, s.run, x.log);
        SendKeeps(s.cfg, s.failed, s.prepare, s.run, x, m, Dead);
        assert (x.log + [m])[..|x.log|] == x.log;
        ExtendKeeps(s, r, x.(pc := Dead, log := x.log + [m]));
      }
    }
  }

  lemma ErrorMeansNothing(c: Config, failed: set<nat>, prepare: set<nat>, run: set<nat>, log: seq<Msg>)
    requires c.repeat > 0
    ensures MsgInv(c, failed, prepare, run, log, Msg(ERROR, 0, "-"))
  {
  }

  lemma AStepKeeps(s: State, s': State)
    requires Inv(s) && WellFormed(s')
    requires s' == s.(aranks := s'.aranks, called := s'.called, returned := s'.returned)
    ensures Inv(s')
  {
    hide RankInv, Sent, UnreadFrom, Shape;
  }

  // ---------------------------------------------------------------- the coordinator acts

  /** Ending the run early leaves exactly one bad result, followed by NOT_RUN only. */
  lemma StopKeeps(s: State, status: Status)
    requires Inv(s) && GoodSoFar(s.cfg, s.results, |s.results|)
    requires status.SETUP_FAILED? || (status.BLOCKED? && AllSent(s.ranks, PREPARED, |s.results|) && CaseOf(s.cfg, |s.results|) !in s.failed)
    ensures Inv(Stop(s, status))
  {
    hide RankInv, AllSent, CoordInv;
    var s' := Stop(s, status);
    var n := |s.results|;
    assert s'.results[..n + 1] == s.results + [status];
    forall j | 0 <= j < n
      ensures s'.results[j] == s.results[j]
    {
      assert s'.results[..n + 1][j] == s'.results[j];
    }
    assert s'.results[n] == s'.results[..n + 1][n] == status;
    assert ShapeAt(s'.results, n);
    FinishedHolds(s');
  }

  lemma FinishedHolds(s: State)
    requires s.cfg.repeat > 0 && s.coord.Finished? && |s.results| == Tasks(s.cfg) && Shape(s.results)
    ensures CoordInv(s)
  {
  }

  /** Finishing task i well. */
  lemma ProceedKeeps(s: State, i: nat, status: Status)
    requires Inv(s) && Working(s.cfg, s.results, s.prepare, s.ranks, i, i + 1)
    requires (status.PASS? && AllSent(s.ranks, DONE, i) && CaseOf(s.cfg, i) !in s.failed)
          || (status.SKIP? && AllSent(s.ranks, SKIPPED, i) && CaseOf(s.cfg, i) in s.failed)
    requires AllUnreadFrom(s.ranks, 4 * i + 5)
    ensures Inv(Proceed(s, i, status))
  {
    hide RankInv, AllSent, UnreadFrom;
    var s' := Proceed(s, i, status);
    if i + 1 < Tasks(s.cfg) {
      forall r | 0 <= r < |s.ranks|
        ensures UnreadFrom(s.ranks[r], 4 * (i + 1) + 2)
      {
        NoPlaceBetween(s.ranks[r], i);
      }
    } else {
      assert ShapeAt(s'.results, |s'.results|);
    }
  }

  lemma NoPlaceBetween(x: Rank, i: nat)
    requires UnreadFrom(x, 4 * i + 5)
    ensures UnreadFrom(x, 4 * (i + 1) + 2)
  {
  }

  /** Hearing from tp ranks is hearing from every rank. */
  lemma EveryoneHeard(s: State, seen: set<nat>, kind: Kind, i: nat)
    requires WellFormed(s) && SeenInv(s.ranks, seen, kind, i) && |seen| >= s.cfg.tp
    ensures AllSent(s.ranks, kind, i) && AllUnreadFrom(s.ranks, LastPlace(kind, i) + 1)
  {
    hide Sent, UnreadFrom;
    BelowIs(s.cfg.tp);
    assert forall r | r in seen :: r < s.cfg.tp;
    forall r: nat | r < s.cfg.tp
      ensures r in seen
    {
      FullSet(seen, Below(s.cfg.tp), r);
    }
  }

  /** Setting more events only adds possibilities for a rank. */
  lemma GrowKeeps(c: Config, failed: set<nat>, prepare: set<nat>, run: set<nat>, prepare': set<nat>, run': set<nat>, x: Rank)
    requires c.repeat > 0 && RankInv(c, failed, prepare, run, x) && prepare <= prepare' && run <= run'
    ensures RankInv(c, failed, prepare', run', x)
  {
    forall a | 0 <= a < |x.log|
      ensures MsgInv(c, failed, prepare', run', x.log, x.log[a])
    {
      assert MsgInv(c, failed, prepare, run, x.log, x.log[a]);
    }
  }

  /** Moving only the coordinator. */
  lemma GotoKeeps(s: State, c: Coord)
    requires Inv(s) && CoordInv(s.(coord := c))
    ensures Inv(s.(coord := c))
  {
    hide RankInv, AllSent, CoordInv, RunInv, ResultsInv;
  }

  /** While the coordinator waits, every result so far is good and the list is not full. */
  lemma WaitingIsGood(s: State)
    requires Inv(s) && (Waits(s.coord) || s.coord.WaitCalled? || s.coord.Hold? || s.coord.Judge?)
    ensures GoodSoFar(s.cfg, s.results, |s.results|)
  {
    hide RankInv, AllSent, UnreadFrom, SeenInv, AllUnreadFrom;
  }

  /** Taking the next message of rank r out of the queue. */
  function Take(s: State, r: nat): State
    requires r < |s.ranks|
  {
    s.(ranks := s.ranks[r := s.ranks[r].(taken := s.ranks[r].taken + 1)])
  }

  lemma TakeKeeps(s: State, r: nat)
    requires Inv(s) && r < |s.ranks| && s.ranks[r].taken < |s.ranks[r].log|
    ensures Inv(Take(s, r))
  {
    hide Sent, LogOrdered, MsgInv, PcInv, Shape;
    var s' := Take(s, r);
    var x, y := s.ranks[r], s'.ranks[r];
    assert RankInv(s.cfg, s.failed, s.prepare, s.run, x);
    assert RankInv(s.cfg, s.failed, s.prepare, s.run, y) by { TakeRank(s.cfg, s.failed, s.prepare, s.run, x); }
    hide RankInv, UnreadFrom;
    forall place | UnreadFrom(x, place)
      ensures UnreadFrom(y, place)
    {
      TakeUnread(x, place);
    }
  }

  lemma TakeRank(c: Config, failed: set<nat>, prepare: set<nat>, run: set<nat>, x: Rank)
    requires c.repeat > 0 && RankInv(c, failed, prepare, run, x) && x.taken < |x.log|
    ensures RankInv(c, failed, prepare, run, x.(taken := x.taken + 1))
  {
    hide LogOrdered, MsgInv;
  }

  lemma TakeUnread(x: Rank, place: nat)
    requires UnreadFrom(x, place)
    ensures UnreadFrom(x.(taken := x.taken + 1), place)
  {
  }

  /** A taken message that answers the wait for task i is about task i, and was its last word on the matter. */
  lemma AnswerCounts(s: State, r: nat, i: nat, kind: Kind)
    requires Inv(s) && r < |s.ranks| && s.ranks[r].taken < |s.ranks[r].log|
    requires s.ranks[r].log[s.ranks[r].taken].kind == kind
    requires (kind.READY? && i == 0) ||
             ((kind.SKIPPED? || kind.PREPARED? || kind.DONE?) && PrepareIs(s.prepare, i + 1) && UnreadFrom(s.ranks[r], 4 * i + 2))
    ensures Sent(Take(s, r).ranks[r].log, kind, i)
    ensures UnreadFrom(Take(s, r).ranks[r], LastPlace(kind, i) + 1)
  {
    hide CoordInv, ResultsInv, RunInv, AllSent, PcInv, SettledBelow;
    var x := s.ranks[r];
    var m := x.log[x.taken];
    assert RankInv(s.cfg, s.failed, s.prepare, s.run, x);
    assert MsgInv(s.cfg, s.failed, s.prepare, s.run, x.log, m);
    if kind.READY? {
      assert m.index == 0;
    } else {
      assert m.index == i;
    }
  }

  lemma OnErrorKeeps(s: State, fromB: bool, r: nat, key: string)
    requires Inv(s) && Waits(s.coord)
    ensures Inv(OnMessage(s, fromB, r, ERROR, key))
  {
    if s.coord.WaitDone? {
      hide RankInv, Sent, UnreadFrom, AllSent, SeenInv, RunInv, ResultsInv;
      GotoKeeps(s, Judge(s.coord.i, s.coord.seen, true));
    } else {
      hide Inv, Stop;
      WaitingIsGood(s);
      StopKeeps(s, SETUP_FAILED);
    }
  }

  lemma SeenGrows(ranks: seq<Rank>, seen: set<nat>, r: nat, kind: Kind, i: nat)
    requires SeenInv(ranks, seen, kind, i)
    requires r < |ranks| && Sent(ranks[r].log, kind, i) && UnreadFrom(ranks[r], LastPlace(kind, i) + 1)
    ensures SeenInv(ranks, seen + {r}, kind, i)
  {
  }

  lemma AnswerSeen(s: State, r: nat, i: nat, kind: Kind, seen: set<nat>)
    requires Inv(s) && r < |s.ranks| && s.ranks[r].taken < |s.ranks[r].log|
    requires s.ranks[r].log[s.ranks[r].taken].kind == kind && (kind.SKIPPED? || kind.PREPARED? || kind.DONE?)
    requires Working(s.cfg, s.results, s.prepare, s.ranks, i, i + 1) && SeenInv(Take(s, r).ranks, seen, kind, i)
    ensures SeenInv(Take(s, r).ranks, seen + {r}, kind, i)
  {
    hide Inv, SeenInv, Sent, UnreadFrom, GoodSoFar;
    AnswerCounts(s, r, i, kind);
    SeenGrows(Take(s, r).ranks, seen, r, kind, i);
  }

  /** What a wait for a task's answers knows, once rank r has been added to those heard. */
  lemma TaskAnswerKeeps(s: State, r: nat, i: nat, kind: Kind, seen: set<nat>, coord: Coord)
    requires Inv(s) && r < |s.ranks| && s.ranks[r].taken < |s.ranks[r].log|
    requires s.ranks[r].log[s.ranks[r].taken].kind == kind
    requires s.cfg.repeat > 0 && CoordInv(s) && CoordInv(Take(s, r))
    requires match kind
             case SKIPPED => s.coord == WaitSkipped(i, seen) && coord == WaitSkipped(i, seen + {r})
             case PREPARED => s.coord == WaitPrepared(i, seen) && coord == WaitPrepared(i, seen + {r})
             case DONE => s.coord == WaitDone(i, seen) && coord == WaitDone(i, seen + {r})
             case _ => false
    ensures CoordInv(Take(s, r).(coord := coord))
  {
    hide Inv, Shape, SeenInv, AllSent, AllUnreadFrom, Working;
    AnswerSeen(s, r, i, kind, seen);
  }

  lemma ReadyAnswerKeeps(s: State, r: nat, seen: set<nat>)
    requires Inv(s) && r < |s.ranks| && s.ranks[r].taken < |s.ranks[r].log|
    requires s.ranks[r].log[s.ranks[r].taken].kind.READY?
    requires s.cfg.repeat > 0 && s.coord == WaitB(seen) && CoordInv(Take(s, r))
    ensures CoordInv(Take(s, r).(coord := WaitB(seen + {r})))
  {
    hide Inv, SeenInv;
    AnswerCounts(s, r, 0, READY);
    SeenGrows(Take(s, r).ranks, seen, r, READY, 0);
  }

  /** The coordinator's state after a rank's message that is not an ERROR. */
  lemma AnswerKeeps(s: State, r: nat)
    requires Inv(s) && Enabled(s, TakeB(r)) && !s.ranks[r].log[s.ranks[r].taken].kind.ERROR?
    requires s.cfg.repeat > 0 && CoordInv(s) && CoordInv(Take(s, r))
    ensures var m := s.ranks[r].log[s.ranks[r].taken]; CoordInv(OnMessage(Take(s, r), true, r, m.kind, m.key))
  {
    hide Inv, CoordInv;
    var m := s.ranks[r].log[s.ranks[r].taken];
    var t := Take(s, r);
    var t' := OnMessage(t, true, r, m.kind, m.key);
    if t' != t {
      match s.coord {
        case WaitB(x) => ReadyAnswerKeeps(s, r, x);
        case WaitSkipped(i, x) => TaskAnswerKeeps(s, r, i, SKIPPED, x, t'.coord);
        case WaitPrepared(i, x) => TaskAnswerKeeps(s, r, i, PREPARED, x, t'.coord);
        case WaitDone(i, x) => TaskAnswerKeeps(s, r, i, DONE, x, t'.coord);
        case _ => assert false;
      }
    }
  }

  lemma GoodAnswerKeeps(s: State, r: nat)
    requires Inv(s) && Enabled(s, TakeB(r)) && !s.ranks[r].log[s.ranks[r].taken].kind.ERROR?
    requires s.cfg.repeat > 0 && CoordInv(s) && Inv(Take(s, r)) && CoordInv(Take(s, r))
    ensures var m := s.ranks[r].log[s.ranks[r].taken]; Inv(OnMessage(Take(s, r), true, r, m.kind, m.key))
  {
    hide Inv, CoordInv;
    var m := s.ranks[r].log[s.ranks[r].taken];
    var t := Take(s, r);
    var t' := OnMessage(t, true, r, m.kind, m.key);
    AnswerKeeps(s, r);
    assert t' == t.(coord := t'.coord);
    GotoKeeps(t, t'.coord);
  }

  lemma TakeBKeeps(s: State, r: nat)
    requires Inv(s) && Enabled(s, TakeB(r))
    ensures Inv(Do(s, TakeB(r)))
  {
    TakeKeeps(s, r);
    var m := s.ranks[r].log[s.ranks[r].taken];
    var t := Take(s, r);
    hide RankInv, RunInv, ResultsInv, AllSent, OnMessage;
    assert CoordInv(s) && CoordInv(t) && Waits(t.coord);
    hide CoordInv, Inv;
    assert Do(s, TakeB(r)) == OnMessage(t, true, r, m.kind, m.key);
    if m.kind.ERROR? {
      OnErrorKeeps(t, true, r, m.key);
    } else {
      GoodAnswerKeeps(s, r);
    }
  }

  lemma TakeAKeeps(s: State, r: nat)
    requires Inv(s) && Enabled(s, TakeA(r))
    ensures Inv(Do(s, TakeA(r)))
  {
    hide RankInv, RunInv, ResultsInv, Sent, UnreadFrom, Shape, SeenInv, GoodSoFar, AllSent;
    var x := s.aranks[r];
    var t := s.(aranks := s.aranks[r := x.(taken := x.taken + 1)]);
    var t' := OnMessage(t, false, r, x.log[x.taken], "-");
    assert Do(s, TakeA(r)) == t';
    AStepKeeps(s, t);
    if x.log[x.taken].ERROR? {
      OnErrorKeeps(t, false, r, "-");
    } else if t' != t {
      assert t' == t.(coord := t'.coord) && t'.coord.WaitA?;
      GotoKeeps(t, t'.coord);
    }
  }

  lemma TimeOutKeeps(s: State)
    requires Inv(s) && Enabled(s, TimeOut)
    ensures Inv(OnTimeOut(s))
  {
    if s.coord.WaitDone? {
      hide RankInv, Sent, UnreadFrom, AllSent, SeenInv, RunInv, ResultsInv;
      GotoKeeps(s, Judge(s.coord.i, s.coord.seen, false));
    } else {
      hide Inv, Stop;
      WaitingIsGood(s);
      StopKeeps(s, SETUP_FAILED);
    }
  }

  lemma PrepareKeeps(s: State)
    requires Inv(s) && s.coord.Prepare?
    ensures Inv(Coordinate(s))
  {
    hide RankInv, Sent, UnreadFrom, Shape;
    var s' := Coordinate(s);
    forall r | 0 <= r < |s.ranks|
      ensures RankInv(s.cfg, s.failed, s'.prepare, s.run, s.ranks[r])
    {
      GrowKeeps(s.cfg, s.failed, s.prepare, s.run, s'.prepare, s.run, s.ranks[r]);
    }
  }

  lemma ReleaseKeeps(s: State)
    requires Inv(s) && s.coord.Release?
    ensures Inv(Coordinate(s))
  {
    hide RankInv, Sent, UnreadFrom, Shape;
    var s' := Coordinate(s);
    forall r | 0 <= r < |s.ranks|
      ensures RankInv(s.cfg, s.failed, s.prepare, s'.run, s.ranks[r])
    {
      GrowKeeps(s.cfg, s.failed, s.prepare, s.run, s.prepare, s'.run, s.ranks[r]);
    }
  }

  lemma JudgeKeeps(s: State)
    requires Inv(s) && s.coord.Judge?
    ensures Inv(Coordinate(s))
  {
    hide RankInv, Sent, UnreadFrom, Shape, ResultsInv, RunInv, Stop, Proceed;
    WaitingIsGood(s);
    var Judge(i, x, bad) := s.coord;
    if bad || s.returned {
      StopKeeps(s, SETUP_FAILED);
    } else if |x| < s.cfg.tp {
      StopKeeps(s, BLOCKED);
    } else {
      EveryoneHeard(s, x, DONE, i);
      ProceedKeeps(s, i, PASS);
    }
  }

  /** The end of the two waits for READY, and the check that A is still held. */
  lemma SetupKeeps(s: State)
    requires Inv(s) && (s.coord.WaitA? || s.coord.WaitB? || s.coord.Hold?)
    ensures Inv(Coordinate(s))
  {
    hide RankInv, Sent, UnreadFrom, Shape, Stop;
    if s.coord.WaitB? && |s.coord.ready| >= s.cfg.tp {
      EveryoneHeard(s, s.coord.ready, READY, 0);
    } else if s.coord.Hold? && s.returned {
      WaitingIsGood(s);
      StopKeeps(s, SETUP_FAILED);
    }
  }

  /** The end of the waits for the ranks' answers. */
  lemma HeardKeeps(s: State)
    requires Inv(s) && (s.coord.WaitSkipped? || s.coord.WaitPrepared? || s.coord.WaitDone?)
    ensures Inv(Coordinate(s))
  {
    hide RankInv, Sent, UnreadFrom, Shape, Proceed, RunInv, ResultsInv, AllSent, GoodSoFar;
    match s.coord
    case WaitSkipped(i, x) =>
      if |x| >= s.cfg.tp { EveryoneHeard(s, x, SKIPPED, i); ProceedKeeps(s, i, SKIP); }
    case WaitPrepared(i, x) =>
      if |x| >= s.cfg.tp { EveryoneHeard(s, x, PREPARED, i); GotoKeeps(s, Release(i)); }
    case WaitDone(i, x) =>
      if |x| >= s.cfg.tp { GotoKeeps(s, Judge(i, x, false)); }
  }

  lemma CoordinateKeeps(s: State)
    requires Inv(s)
    ensures Inv(Coordinate(s))
  {
    hide RankInv, Sent, UnreadFrom, Shape, RunInv, ResultsInv, AllSent, GoodSoFar;
    match s.coord
    case Prepare(_) => PrepareKeeps(s);
    case Release(_) => ReleaseKeeps(s);
    case Judge(_, _, _) => JudgeKeeps(s);
    case Finished =>
    case WaitCalled => if Coordinate(s) != s { GotoKeeps(s, Hold); }
    case Decide(_) => GotoKeeps(s, Coordinate(s).coord);
    case WaitA(_) => SetupKeeps(s);
    case WaitB(_) => SetupKeeps(s);
    case Hold => SetupKeeps(s);
    case _ => HeardKeeps(s);
  }

  lemma StepKeeps(s: State, step: Step)
    requires Inv(s) && Enabled(s, step)
    ensures Inv(Do(s, step))
  {
    assert WellFormed(s);
    hide Inv, Coordinate, OnTimeOut, OnMessage, RankStep;
    match step
    case BStep(r, ok) => BStepKeeps(s, r, ok);
    case BDie(r, silent) => BDieKeeps(s, r, silent);
    case AStep(r) => AStepKeeps(s, ARankStep(s, r));
    case ADie(r, silent) => AStepKeeps(s, Do(s, ADie(r, silent)));
    case TakeB(r) => TakeBKeeps(s, r);
    case TakeA(r) => TakeAKeeps(s, r);
    case TimeOut => TimeOutKeeps(s);
    case CoordStep => CoordinateKeeps(s);
  }

  lemma {:induction false} RunKeeps(s: State, steps: seq<Step>, s': State)
    requires Inv(s) && Reaches(s, steps, s')
    ensures Inv(s') && s'.cfg == s.cfg
    decreases |steps|
  {
    assert WellFormed(s);
    hide Inv, Enabled;
    if steps != [] {
      StepKeeps(s, steps[0]);
      RunKeeps(Do(s, steps[0]), steps[1..], s');
    }
  }

  lemma InitialHolds(s: State)
    requires Initial(s)
    ensures Inv(s)
  {
  }

  // ---------------------------------------------------------------- theorems

  /** A message in a log speaks the truth about the events. */
  lemma SentMeans(s: State, r: nat, kind: Kind, i: nat)
    requires Inv(s) && r < |s.ranks| && Sent(s.ranks[r].log, kind, i)
    requires kind.SKIPPED? || kind.PREPARED? || kind.ENTER? || kind.DONE?
    ensures i < Tasks(s.cfg) && i in s.prepare && SettledBelow(s.ranks[r].log, i)
    ensures kind.SKIPPED? <==> CaseOf(s.cfg, i) in s.failed
    ensures kind.ENTER? || kind.DONE? ==> i in s.run
  {
    hide CoordInv, ResultsInv, RunInv, LogOrdered, PcInv, SettledBelow;
    var x := s.ranks[r];
    var p :| 0 <= p < |x.log| && x.log[p].kind == kind && x.log[p].index == i;
    assert MsgInv(s.cfg, s.failed, s.prepare, s.run, x.log, x.log[p]);
  }

  /**
   Lock step: once any rank has entered task i, every rank has prepared task i and is through
   with every earlier task, having skipped exactly those whose warm-up failed somewhere.
   */
  lemma LockStep(s: State, steps: seq<Step>, s': State, r: nat, i: nat, q: nat, j: nat)
    requires Initial(s) && Reaches(s, steps, s')
    requires r < |s'.ranks| && Sent(s'.ranks[r].log, ENTER, i)
    requires q < |s'.ranks| && s'.cfg.repeat > 0
    ensures Sent(s'.ranks[q].log, PREPARED, i)
    ensures j < i ==> Sent(s'.ranks[q].log, if CaseOf(s'.cfg, j) in s'.failed then SKIPPED else DONE, j)
  {
    hide Initial, Reaches, Sent, CoordInv, ResultsInv, RankInv;
    InitialHolds(s);
    RunKeeps(s, steps, s');
    SentMeans(s', r, ENTER, i);
    SentMeans(s', q, PREPARED, i);
    if j < i {
      assert Settled(s'.ranks[q].log, j);
      if Sent(s'.ranks[q].log, DONE, j) { SentMeans(s', q, DONE, j); } else { SentMeans(s', q, SKIPPED, j); }
    }
  }

  /** No two ranks ever disagree on skipping a task, and the coordinator's verdict agrees with all of them. */
  lemma SkipAgreement(s: State, steps: seq<Step>, s': State, q: nat, r: nat, i: nat)
    requires Initial(s) && Reaches(s, steps, s')
    requires q < |s'.ranks| && r < |s'.ranks|
    ensures !(Sent(s'.ranks[q].log, SKIPPED, i) && Sent(s'.ranks[r].log, PREPARED, i))
    ensures i < |s'.results| && s'.results[i].SKIP? ==> Sent(s'.ranks[r].log, SKIPPED, i)
    ensures i < |s'.results| && s'.results[i].PASS? ==> Sent(s'.ranks[r].log, DONE, i)
    ensures i < |s'.results| && s'.results[i].BLOCKED? ==> Sent(s'.ranks[r].log, PREPARED, i)
  {
    hide Initial, Reaches, Sent, CoordInv, RankInv;
    InitialHolds(s);
    RunKeeps(s, steps, s');
    if Sent(s'.ranks[q].log, SKIPPED, i) { SentMeans(s', q, SKIPPED, i); }
    if Sent(s'.ranks[r].log, PREPARED, i) { SentMeans(s', r, PREPARED, i); }
  }

  ghost predicate AllReady(s: State) {
    forall r | 0 <= r < |s.ranks| :: Sent(s.ranks[r].log, READY, 0)
  }

  /** A step adds to the ranks' logs and takes nothing away. */
  lemma LogsGrow(s: State, step: Step, r: nat)
    requires WellFormed(s) && Enabled(s, step) && r < |s.ranks|
    ensures r < |Do(s, step).ranks| && s.ranks[r].log <= Do(s, step).ranks[r].log
  {
    hide Coordinate, OnMessage, OnTimeOut, RankStep;
    match step {
      case BStep(q, ok) =>
        RankLogGrows(s.cfg, s.aReady, s.bStart, s.failed, s.prepare, s.run, s.ranks[q], ok);
      case _ =>
    }
  }

  lemma RankLogGrows(c: Config, aReady: bool, bStart: bool, failed: set<nat>, prepare: set<nat>, run: set<nat>, x: Rank, ok: bool)
    requires c.repeat > 0
    ensures x.log <= RankStep(c, aReady, bStart, failed, prepare, run, x, ok).log
  {
  }

  lemma ReadyStays(s: State, step: Step)
    requires WellFormed(s) && Enabled(s, step) && AllReady(s)
    ensures AllReady(Do(s, step))
  {
    var s' := Do(s, step);
    forall r | 0 <= r < |s'.ranks|
      ensures Sent(s'.ranks[r].log, READY, 0)
    {
      LogsGrow(s, step, r);
      hide Do;
      var log, log' := s.ranks[r].log, s'.ranks[r].log;
      assert Sent(log, READY, 0);
      var p :| 0 <= p < |log| && log[p].kind == READY && log[p].index == 0;
      assert log'[p] == log[p];
    }
  }

  lemma FrozenStep(s: State, step: Step)
    requires Inv(s) && WellFormed(s) && Enabled(s, step) && AllReady(s)
    ensures Do(s, step).failed == s.failed
  {
    hide CoordInv, ResultsInv, RunInv, MsgInv, LogOrdered, PcInv, Coordinate, OnMessage, OnTimeOut;
    if step.BStep? {
      assert RankInv(s.cfg, s.failed, s.prepare, s.run, s.ranks[step.r]);
      assert Sent(s.ranks[step.r].log, READY, 0);
      assert !Warming(s.ranks[step.r].pc);
    }
  }

  lemma {:induction false} FrozenRun(s: State, steps: seq<Step>, s': State)
    requires Inv(s) && WellFormed(s) && Reaches(s, steps, s') && AllReady(s)
    ensures s'.failed == s.failed
    decreases |steps|
  {
    hide Inv, Enabled, Do, AllReady;
    if steps != [] {
      StepKeeps(s, steps[0]);
      FrozenStep(s, steps[0]);
      ReadyStays(s, steps[0]);
      FrozenRun(Do(s, steps[0]), steps[1..], s');
    }
  }

  /** Once every rank has reported READY, which cases failed to warm up never changes again. */
  lemma FailedIsFrozen(s: State, steps: seq<Step>, s': State, more: seq<Step>, s'': State)
    requires Initial(s) && Reaches(s, steps, s') && AllReady(s') && WellFormed(s') && Reaches(s', more, s'')
    ensures s''.failed == s'.failed
  {
    hide Initial, Reaches, Inv, AllReady;
    InitialHolds(s);
    RunKeeps(s, steps, s');
    FrozenRun(s', more, s'');
  }

  /** When the coordinator is done there is exactly one result per task, of the documented shape. */
  lemma OutcomeShape(s: State, steps: seq<Step>, s': State)
    requires Initial(s) && Reaches(s, steps, s') && s'.coord.Finished?
    ensures |s'.results| == Tasks(s'.cfg) && Shape(s'.results)
  {
    hide Initial, Reaches, RankInv, ResultsInv, RunInv, Shape;
    InitialHolds(s);
    RunKeeps(s, steps, s');
  }

  /** A task is judged PASS only with every rank done and the collective of A not returned. */
  lemma PassWhileHeld(s: State, steps: seq<Step>, s': State)
    requires Initial(s) && Reaches(s, steps, s') && WellFormed(s') && s'.coord.Judge?
    requires var i := s'.coord.i; i < |Coordinate(s').results| && Coordinate(s').results[i].PASS?
    ensures |s'.results| == s'.coord.i && !s'.returned
    ensures forall r | 0 <= r < |s'.ranks| :: Sent(s'.ranks[r].log, DONE, s'.coord.i)
  {
    hide Initial, Reaches, RankInv, ResultsInv, RunInv, Sent, UnreadFrom;
    InitialHolds(s);
    RunKeeps(s, steps, s');
    var Judge(i, x, bad) := s'.coord;
    if !bad && !s'.returned && |x| >= s'.cfg.tp {
      EveryoneHeard(s', x, DONE, i);
    } else {
      StopIsNotPass(s', if bad || s'.returned then SETUP_FAILED else BLOCKED);
    }
  }

  lemma StopIsNotPass(s: State, status: Status)
    requires |s.results| < Tasks(s.cfg)
    ensures Stop(s, status).results[|s.results|] == status
  {
    var s' := Stop(s, status);
    var n := |s.results| + 1;
    assert s'.results[..n] == s.results + [status];
    assert s'.results[..n][n - 1] == s'.results[n - 1];
  }
}
