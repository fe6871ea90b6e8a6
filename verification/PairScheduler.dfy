/**
 The pair scheduler's shared-memory protocol (version 4): two vLLM instances on one
 host take turns running execution rounds.  Every instance has the same number of
 workers; a coordinator thread in one of them hands the single grant back and forth.

 The model interleaves single atomic operations.  Each worker and the coordinator is a
 program counter with the values it has loaded so far, and one step performs one
 load, store, compare-and-swap or fetch-or.  Clocks, heartbeats and deadlines only ever
 decide whether a step gives up, so they are a free choice of the step (`trip`).  Workers
 open at any time; an instance that nobody has opened yet counts as idle.
 */
module PairScheduler {

  const NO_OWNER: int := -1

  datatype Round = Idle | Initializing | Collecting | Ready | Running | Complete | Draining

  /** In a mask the bit of a rank is the id of the worker with that rank. */
  datatype Group = Group(
    state: Round, forwardSeq: nat, grant: nat,
    ready: set<nat>, complete: set<nat>, exited: set<nat>)

  /** Where a worker is inside `ps_open`, `ps_enter_forward` or `ps_leave_forward`. */
  datatype Pc =
    | Unopened
    | LoadSeq
    | Out
    | EnterLoop
    | CasInit
    | CheckSeq(st: Round)
    | Init(k: nat)
    | SetLast
    | SetReady
    | PublishReady
    | GrantPoll
    | GrantState
    | GrantSeq(st: Round)
    | GrantId(st: Round, sq: nat)
    | GrantOwner(st: Round, sq: nat, id: nat)
    | Inside
    | LeaveCheck(k: nat)
    | SetComplete
    | PublishComplete
    | DrainPoll
    | DrainState
    | DrainSeq(st: Round)
    | SetExit
    | Reset(k: nat)
    | Aborted

  datatype Worker = Worker(pc: Pc, nextSeq: nat, lastSeq: nat, activeSeq: nat, activeGrant: nat)

  /** Where the coordinator is inside `coordinator_tick`. */
  datatype Coord =
    | Tick
    | ReadState(o: nat)
    | ReadComplete(o: nat, st: Round)
    | ClearExit(o: nat)
    | ToDraining(o: nat)
    | ReleaseOwner(o: nat)
    | Recheck
    | ScanState(i: nat, found: set<nat>)
    | ScanReady(i: nat, st: Round, found: set<nat>)
    | Select(found: set<nat>)
    | Claim(sel: nat)
    | Issue(sel: nat)
    | Stamp(sel: nat, id: nat)
    | Hand(sel: nat)

  /** `n` workers per instance; workers 0..n are instance 0 and n..2n instance 1. */
  datatype State = State(
    n: nat, running: bool, owner: int, grants: nat,
    groups: seq<Group>, workers: seq<Worker>, coord: Coord)

  datatype Step =
    | WorkerStep(w: nat, trip: bool)
    | CoordStep(trip: bool, pick: nat)
    | Fail

  function Instance(n: nat, w: nat): nat { if w < n then 0 else 1 }

  /** The expected mask of an instance: one bit for each of its workers. */
  function Members(n: nat, i: nat): set<nat> { set w: nat | w < 2 * n && Instance(n, w) == i }

  ghost predicate WellFormed(s: State) {
    && s.n > 0
    && |s.groups| == 2
    && |s.workers| == 2 * s.n
  }

  ghost predicate Initial(s: State) {
    && WellFormed(s)
    && s.running
    && s.owner == NO_OWNER
    && s.grants == 0
    && (forall i | 0 <= i < 2 :: s.groups[i] == Group(Idle, 0, 0, {}, {}, {}))
    && (forall w | 0 <= w < |s.workers| :: s.workers[w] == Worker(Unopened, 0, 0, 0, 0))
    && s.coord == Tick
  }

  // ---------------------------------------------------------------- worker steps

  /** What a worker of instance i can load besides its own group. */
  datatype View = View(i: nat, members: set<nat>, running: bool, owner: int, grants: nat)

  /** What one action of a worker writes: itself, its group, and `fail_pair`. */
  datatype Effect = Effect(x: Worker, g: Group, fail: bool)

  function Goto(x: Worker, g: Group, pc: Pc): Effect { Effect(x.(pc := pc), g, false) }

  /** `fail_pair`, followed by the error return of the call. */
  function Abort(x: Worker, g: Group): Effect { Effect(x.(pc := Aborted), g, true) }

  /** The relaxed stores of a new round, ending with the release store of COLLECTING. */
  function InitStore(g: Group, x: Worker, k: nat): Effect {
    if k == 0 then Goto(x, g.(forwardSeq := x.nextSeq), Init(1))
    else if k == 1 then Goto(x, g.(grant := 0), Init(2))
    else if k == 2 then Goto(x, g.(ready := {}), Init(3))
    else if k == 3 then Goto(x, g.(complete := {}), Init(4))
    else if k == 4 then Goto(x, g.(exited := {}), Init(5))
    else Goto(x, g.(state := Collecting), SetLast)
  }

  /** The last worker out clears the round and reopens the group. */
  function ResetStore(g: Group, x: Worker, k: nat): Effect {
    if k == 0 then Goto(x, g.(ready := {}), Reset(1))
    else if k == 1 then Goto(x, g.(complete := {}), Reset(2))
    else if k == 2 then Goto(x, g.(grant := 0), Reset(3))
    else Effect(x.(pc := Out, activeSeq := 0, activeGrant := 0), g.(state := Idle), false)
  }

  /** Registering in `ps_open`, then `ps_enter_forward`, one atomic access at a time. */
  function EnterStep(u: View, g: Group, w: nat, x: Worker, trip: bool): Effect {
    match x.pc
    case Unopened => Effect(x.(pc := LoadSeq, lastSeq := 0), g, false)
    case LoadSeq => Effect(x.(pc := Out, nextSeq := g.forwardSeq), g, false)
    case Out =>
      var y := x.(nextSeq := x.nextSeq + 1);
      if x.activeSeq != 0 then Abort(y, g) else Goto(y, g, if u.running then EnterLoop else Aborted)
    case EnterLoop =>
      if g.state == Idle then Goto(x, g, CasInit)
      else if g.state == Initializing || g.state == Draining then Goto(x, g, EnterLoop)
      else Goto(x, g, CheckSeq(g.state))
    case CasInit =>
      if g.state == Idle then Goto(x, g.(state := Initializing), Init(0)) else Goto(x, g, EnterLoop)
    case CheckSeq(st) =>
      if st == Collecting && g.forwardSeq == x.nextSeq then Goto(x, g, SetLast) else Abort(x, g)
    case Init(k) => InitStore(g, x, k)
    case SetLast => Effect(x.(pc := SetReady, lastSeq := x.nextSeq), g, false)
    case SetReady =>
      var g' := g.(ready := g.ready + {w});
      if w in g.ready then Abort(x, g') else Goto(x, g', if g'.ready == u.members then PublishReady else GrantPoll)
    case PublishReady =>
      if g.state == Collecting then Goto(x, g.(state := Ready), GrantPoll) else Abort(x, g)
    case GrantPoll =>
      if u.running && trip then Abort(x, g) else Goto(x, g, if u.running then GrantState else Aborted)
    case GrantState => Goto(x, g, GrantSeq(g.state))
    case GrantSeq(st) => Goto(x, g, GrantId(st, g.forwardSeq))
    case GrantId(st, sq) => Goto(x, g, GrantOwner(st, sq, g.grant))
    case GrantOwner(st, sq, id) =>
      if st == Running && u.owner == u.i && sq == x.nextSeq && id != 0 then
        if x.lastSeq != x.nextSeq then Abort(x, g)
        else Effect(x.(pc := Inside, activeSeq := x.nextSeq, activeGrant := id), g, false)
      else if sq != x.nextSeq || (st != Collecting && st != Ready && st != Running) then Abort(x, g)
      else Goto(x, g, GrantPoll)
    case _ => Goto(x, g, x.pc)
  }

  /** The loads that fence a leaving worker against another round. */
  predicate LeaveFence(u: View, g: Group, x: Worker, k: nat) {
    if k == 1 then u.owner == u.i
    else if k == 2 then g.forwardSeq == x.activeSeq
    else if k == 3 then g.grant == x.activeGrant
    else if k == 4 then g.state == Running
    else x.lastSeq == x.activeSeq
  }

  /** `ps_leave_forward`, one atomic access at a time. */
  function LeaveStep(u: View, g: Group, w: nat, x: Worker, trip: bool): Effect {
    match x.pc
    case Inside => Goto(x, g, LeaveCheck(0))
    case LeaveCheck(k) =>
      if k == 0 then
        if u.running && trip then Abort(x, g) else Goto(x, g, if u.running then LeaveCheck(1) else Aborted)
      else if !LeaveFence(u, g, x, k) then Abort(x, g)
      else Goto(x, g, if k < 5 then LeaveCheck(k + 1) else SetComplete)
    case SetComplete =>
      var g' := g.(complete := g.complete + {w});
      if w in g.complete then Abort(x, g')
      else Goto(x, g', if g'.complete == u.members then PublishComplete else DrainPoll)
    case PublishComplete =>
      if g.state == Running then Goto(x, g.(state := Complete), DrainPoll) else Abort(x, g)
    case DrainPoll => Goto(x, g, if u.running then DrainState else Aborted)
    case DrainState => Goto(x, g, DrainSeq(g.state))
    case DrainSeq(st) =>
      if st == Draining && g.forwardSeq == x.activeSeq then Goto(x, g, SetExit)
      else if g.forwardSeq != x.activeSeq || (st != Running && st != Complete && st != Draining) then Abort(x, g)
      else Goto(x, g, DrainPoll)
    case SetExit =>
      var g' := g.(exited := g.exited + {w});
      if g'.exited == u.members then Goto(x, g', Reset(0))
      else Effect(x.(pc := Out, activeSeq := 0, activeGrant := 0), g', false)
    case Reset(k) => ResetStore(g, x, k)
    case _ => Goto(x, g, x.pc)
  }

  predicate Entering(pc: Pc) {
    pc.Unopened? || pc.LoadSeq? || pc.Out? || pc.EnterLoop? || pc.CasInit? || pc.CheckSeq? || pc.Init? || pc.SetLast? || pc.SetReady?
    || pc.PublishReady? || pc.GrantPoll? || pc.GrantState? || pc.GrantSeq? || pc.GrantId? || pc.GrantOwner?
  }

  /** A worker is in a forward from a successful enter until it posts its COMPLETE bit. */
  predicate InForward(pc: Pc) { pc.Inside? || pc.LeaveCheck? || pc.SetComplete? }

  function WorkerAction(u: View, g: Group, w: nat, x: Worker, trip: bool): Effect {
    if Entering(x.pc) then EnterStep(u, g, w, x, trip) else LeaveStep(u, g, w, x, trip)
  }

  function ViewOf(s: State, i: nat): View { View(i, Members(s.n, i), s.running, s.owner, s.grants) }

  function Apply(s: State, w: nat, e: Effect): (r: State)
    requires WellFormed(s) && w < |s.workers|
    ensures WellFormed(r) && r.n == s.n
  {
    s.(workers := s.workers[w := e.x], groups := s.groups[Instance(s.n, w) := e.g], running := s.running && !e.fail)
  }

  // ---------------------------------------------------------------- coordinator steps

  function SetGroup(s: State, i: nat, g: Group, coord: Coord): (r: State)
    requires WellFormed(s) && i < 2
    ensures WellFormed(r) && r.n == s.n
  {
    s.(groups := s.groups[i := g], coord := coord)
  }

  /**
   One action of `coordinator_tick`.  `pick` stands for the oldest-publisher choice and, in a
   scan, for whether the group's workers are seen alive: a group that is not is passed over.
   */
  function Coordinate(s: State, trip: bool, pick: nat): (r: State)
    requires WellFormed(s)
    requires CoordReady(s, pick)
    ensures WellFormed(r) && r.n == s.n
  {
    match s.coord
    case Tick =>
      if !s.running || trip then s.(running := s.running && !trip)
      else s.(coord := if s.owner != NO_OWNER then ReadState(s.owner) else Recheck)
    case ReadState(o) => s.(coord := ReadComplete(o, s.groups[o].state))
    case ReadComplete(o, st) =>
      if trip then s.(running := false, coord := Recheck)
      else if st == Complete && s.groups[o].complete == Members(s.n, o) then s.(coord := ClearExit(o))
      else s.(coord := Recheck)
    case ClearExit(o) => SetGroup(s, o, s.groups[o].(exited := {}), ToDraining(o))
    case ToDraining(o) => SetGroup(s, o, s.groups[o].(state := Draining), ReleaseOwner(o))
    case ReleaseOwner(o) => s.(owner := NO_OWNER, coord := Recheck)
    case Recheck => s.(coord := if s.running && s.owner == NO_OWNER then ScanState(0, {}) else Tick)
    case ScanState(i, found) => s.(coord := ScanReady(i, s.groups[i].state, found))
    case ScanReady(i, st, found) =>
      if trip then s.(running := false, coord := Tick)
      else
        var found' := if st == Ready && s.groups[i].ready == Members(s.n, i) && pick == 0 then found + {i} else found;
        s.(coord := if i == 0 then ScanState(1, found') else Select(found'))
    case Select(found) => s.(coord := if found == {} then Tick else Claim(pick))
    case Claim(sel) =>
      if s.groups[sel].state == Ready then SetGroup(s, sel, s.groups[sel].(state := Running), Issue(sel))
      else s.(coord := Tick)
    case Issue(sel) => s.(grants := s.grants + 1, coord := Stamp(sel, s.grants + 1))
    case Stamp(sel, id) => SetGroup(s, sel, s.groups[sel].(grant := id), Hand(sel))
    case Hand(sel) => s.(owner := sel, coord := Tick)
  }

  /** The coordinator only ever names one of the two instances. */
  predicate CoordReady(s: State, pick: nat) {
    match s.coord
    case Tick => s.owner == NO_OWNER || 0 <= s.owner < 2
    case ReadState(o) => o < 2
    case ReadComplete(o, _) => o < 2
    case ClearExit(o) => o < 2
    case ToDraining(o) => o < 2
    case ReleaseOwner(o) => o < 2
    case Recheck => true
    case ScanState(i, _) => i < 2
    case ScanReady(i, _, _) => i < 2
    case Select(found) => found == {} || (pick in found && pick < 2)
    case Claim(sel) => sel < 2
    case Issue(sel) => sel < 2
    case Stamp(sel, _) => sel < 2
    case Hand(sel) => sel < 2
  }

  predicate Enabled(s: State, step: Step) {
    match step
    case WorkerStep(w, _) => w < |s.workers|
    case CoordStep(_, pick) => CoordReady(s, pick)
    case Fail => true
  }

  function Do(s: State, step: Step): (r: State)
    requires WellFormed(s) && Enabled(s, step)
    ensures WellFormed(r) && r.n == s.n
  {
    match step
    case WorkerStep(w, trip) =>
      var i := Instance(s.n, w);
      Apply(s, w, WorkerAction(ViewOf(s, i), s.groups[i], w, s.workers[w], trip))
    case CoordStep(trip, pick) => Coordinate(s, trip, pick)
    case Fail => s.(running := false)
  }

  /** The schedule `steps` is a legal run from s that ends in s'. */
  ghost predicate Reaches(s: State, steps: seq<Step>, s': State)
    requires WellFormed(s)
    decreases |steps|
  {
    if steps == [] then s' == s
    else Enabled(s, steps[0]) && Reaches(Do(s, steps[0]), steps[1..], s')
  }

  // ---------------------------------------------------------------- invariant

  ghost predicate GroupInv(members: set<nat>, g: Group) {
    && (g.state.Idle? || g.state.Initializing? || g.state.Collecting? || g.state.Ready? ==>
          g.complete == {} && g.grant == 0)
    && (g.state.Idle? || g.state.Initializing? ==> g.ready == {})
    && (g.state.Ready? || Granted(g) ==> g.ready == members)
    && (g.state.Complete? ==> g.complete == members)
  }

  predicate Granted(g: Group) { g.state.Running? || g.state.Complete? }

  /** A worker between two rounds: it has left the previous one and not joined the next. */
  ghost predicate Between(g: Group, w: nat) {
    || g.state.Idle?
    || g.state.Initializing?
    || (g.state.Collecting? && w !in g.ready)
    || (g.state.Draining? && w in g.exited)
  }

  /** A worker whose READY bit is posted and who has not been let in. */
  ghost predicate Waiting(g: Group, w: nat, x: Worker) {
    && g.forwardSeq == x.nextSeq == x.lastSeq
    && w in g.ready
    && w !in g.complete
    && (g.state.Collecting? || g.state.Ready? || g.state.Running?)
  }

  /** What a worker inside a forward can rely on. */
  ghost predicate Holding(u: View, g: Group, w: nat, x: Worker) {
    && u.owner == u.i
    && g.state.Running?
    && g.forwardSeq == x.activeSeq == x.lastSeq == x.nextSeq
    && g.grant == x.activeGrant == u.grants
    && w !in g.complete
  }

  /** A worker whose COMPLETE bit is posted and whose EXIT bit is not. */
  ghost predicate Leaving(g: Group, w: nat, x: Worker) {
    && g.forwardSeq == x.activeSeq
    && (Granted(g) ==> w in g.complete)
    && (g.state.Draining? ==> w !in g.exited)
    && (Granted(g) || g.state.Draining?)
  }

  ghost predicate WorkerInv(u: View, g: Group, w: nat, x: Worker) {
    match x.pc
    case Unopened => Between(g, w)
    case LoadSeq => Between(g, w)
    case Out => Between(g, w)
    case EnterLoop => Between(g, w)
    case CasInit => Between(g, w)
    case CheckSeq(st) => Between(g, w) && (st.Collecting? ==> g.state.Collecting?)
    case Init(k) => g.state.Initializing? && (k > 0 ==> g.forwardSeq == x.nextSeq)
    case SetLast => g.state.Collecting? && w !in g.ready && g.forwardSeq == x.nextSeq
    case SetReady => g.state.Collecting? && w !in g.ready && g.forwardSeq == x.nextSeq == x.lastSeq
    case PublishReady => Waiting(g, w, x) && g.state.Collecting? && g.ready == u.members
    case GrantPoll => Waiting(g, w, x)
    case GrantState => Waiting(g, w, x)
    case GrantSeq(st) => Waiting(g, w, x) && (st.Running? ==> g.state.Running?)
    case GrantId(st, sq) => Waiting(g, w, x) && (st.Running? ==> g.state.Running?)
    case GrantOwner(st, sq, id) =>
      Waiting(g, w, x) && (st.Running? ==> g.state.Running?) && (id != 0 ==> id == g.grant)
    case Inside => Holding(u, g, w, x)
    case LeaveCheck(_) => Holding(u, g, w, x)
    case SetComplete => Holding(u, g, w, x)
    case PublishComplete => Leaving(g, w, x) && g.state.Running? && g.complete == u.members
    case DrainPoll => Leaving(g, w, x)
    case DrainState => Leaving(g, w, x)
    case DrainSeq(st) => Leaving(g, w, x) && (st.Draining? ==> g.state.Draining?)
    case SetExit => Leaving(g, w, x) && g.state.Draining?
    case Reset(k) =>
      && g.state.Draining? && g.exited == u.members
      && (k >= 1 ==> g.ready == {}) && (k >= 2 ==> g.complete == {}) && (k >= 3 ==> g.grant == 0)
    case Aborted => !u.running
  }

  /** The places that at most one worker of an instance can be at. */
  predicate Solo(pc: Pc) { pc.Init? || pc.PublishReady? || pc.PublishComplete? || pc.Reset? }

  ghost predicate SoloInv(s: State)
    requires WellFormed(s)
  {
    forall v, w | 0 <= v < w < |s.workers| && Instance(s.n, v) == Instance(s.n, w) ::
      !(Solo(s.workers[v].pc) && Solo(s.workers[w].pc))
  }

  ghost predicate WorkersInv(s: State)
    requires WellFormed(s)
  {
    forall w | 0 <= w < |s.workers| ::
      WorkerInv(ViewOf(s, Instance(s.n, w)), s.groups[Instance(s.n, w)], w, s.workers[w])
  }

  /** Exactly the owner's group is between RUNNING and COMPLETE, under the newest grant. */
  ghost predicate OwnerMatches(s: State, i: nat)
    requires WellFormed(s) && i < 2
  {
    (Granted(s.groups[i]) <==> s.owner == i) && (s.owner == i ==> s.groups[i].grant == s.grants && s.grants > 0)
  }

  /** The claimed group is RUNNING, but nobody has been told yet. */
  ghost predicate Granting(s: State, sel: nat)
    requires WellFormed(s)
  {
    && sel < 2
    && s.owner == NO_OWNER
    && s.groups[sel].state.Running?
    && s.groups[sel].complete == {}
    && !Granted(s.groups[1 - sel])
  }

  ghost predicate CoordInv(s: State)
    requires WellFormed(s)
  {
    var matches := OwnerMatches(s, 0) && OwnerMatches(s, 1);
    var free := !Granted(s.groups[0]) && !Granted(s.groups[1]);
    && (s.owner == NO_OWNER || 0 <= s.owner < 2)
    && match s.coord
       case Tick => matches
       case Recheck => matches
       case ReadState(o) => s.owner == o && matches
       case ReadComplete(o, st) => s.owner == o && matches && (st.Complete? ==> s.groups[o].state.Complete?)
       case ClearExit(o) => s.owner == o && matches && s.groups[o].state.Complete?
       case ToDraining(o) => s.owner == o && matches && s.groups[o].state.Complete? && s.groups[o].exited == {}
       case ReleaseOwner(o) => s.owner == o && free
       case ScanState(i, found) => i < 2 && s.owner == NO_OWNER && free && found <= {0, 1}
       case ScanReady(i, _, found) => i < 2 && s.owner == NO_OWNER && free && found <= {0, 1}
       case Select(found) => s.owner == NO_OWNER && free && found <= {0, 1}
       case Claim(sel) => sel < 2 && s.owner == NO_OWNER && free
       case Issue(sel) => Granting(s, sel) && s.groups[sel].grant == 0
       case Stamp(sel, id) => Granting(s, sel) && s.groups[sel].grant == 0 && id == s.grants > 0
       case Hand(sel) => Granting(s, sel) && s.groups[sel].grant == s.grants > 0
  }

  ghost predicate Inv(s: State) {
    && WellFormed(s)
    && CoordInv(s)
    && GroupInv(Members(s.n, 0), s.groups[0])
    && GroupInv(Members(s.n, 1), s.groups[1])
    && SoloInv(s)
    && WorkersInv(s)
  }

  // ---------------------------------------------------------------- a worker step keeps it

  /** The acting worker still fits its group, and the group is still consistent. */
  lemma EnterKeepsGroup(u: View, g: Group, w: nat, x: Worker, trip: bool)
    requires WorkerInv(u, g, w, x) && GroupInv(u.members, g) && w in u.members && Entering(x.pc)
    ensures GroupInv(u.members, EnterStep(u, g, w, x, trip).g)
  {
  }

  lemma EnterFits(u: View, g: Group, w: nat, x: Worker, trip: bool)
    requires WorkerInv(u, g, w, x) && GroupInv(u.members, g) && w in u.members && Entering(x.pc)
    requires g.state.Running? && u.owner == u.i ==> g.grant == u.grants
    ensures var e := EnterStep(u, g, w, x, trip);
            WorkerInv(u.(running := u.running && !e.fail), e.g, w, e.x)
  {
  }

  lemma LeaveKeepsGroup(u: View, g: Group, w: nat, x: Worker, trip: bool)
    requires WorkerInv(u, g, w, x) && GroupInv(u.members, g) && w in u.members && !Entering(x.pc)
    ensures GroupInv(u.members, LeaveStep(u, g, w, x, trip).g)
  {
  }

  /** A worker on its way out that has not yet posted its COMPLETE bit for good. */
  predicate Completing(pc: Pc) { pc.Inside? || pc.LeaveCheck? || pc.SetComplete? || pc.PublishComplete? }

  lemma CompleteFits(u: View, g: Group, w: nat, x: Worker, trip: bool)
    requires WorkerInv(u, g, w, x) && GroupInv(u.members, g) && w in u.members && Completing(x.pc)
    ensures var e := LeaveStep(u, g, w, x, trip);
            WorkerInv(u.(running := u.running && !e.fail), e.g, w, e.x)
  {
  }

  lemma DrainFits(u: View, g: Group, w: nat, x: Worker, trip: bool)
    requires WorkerInv(u, g, w, x) && GroupInv(u.members, g) && w in u.members && !Entering(x.pc) && !Completing(x.pc)
    ensures var e := LeaveStep(u, g, w, x, trip);
            WorkerInv(u.(running := u.running && !e.fail), e.g, w, e.x)
  {
  }

  lemma LeaveFits(u: View, g: Group, w: nat, x: Worker, trip: bool)
    requires WorkerInv(u, g, w, x) && GroupInv(u.members, g) && w in u.members && !Entering(x.pc)
    ensures var e := LeaveStep(u, g, w, x, trip);
            WorkerInv(u.(running := u.running && !e.fail), e.g, w, e.x)
  {
    hide WorkerInv, GroupInv, LeaveStep;
    if Completing(x.pc) { CompleteFits(u, g, w, x, trip); } else { DrainFits(u, g, w, x, trip); }
  }

  /** Another worker of the same instance still fits after w's action. */
  lemma EnterSpares(u: View, g: Group, w: nat, x: Worker, trip: bool, v: nat, y: Worker)
    requires WorkerInv(u, g, w, x) && GroupInv(u.members, g) && w in u.members && Entering(x.pc)
    requires WorkerInv(u, g, v, y) && v in u.members && v != w && !(Solo(x.pc) && Solo(y.pc))
    ensures var e := EnterStep(u, g, w, x, trip);
            && WorkerInv(u.(running := u.running && !e.fail), e.g, v, y)
            && !(Solo(e.x.pc) && Solo(y.pc))
  {
  }

  lemma LeaveSpares(u: View, g: Group, w: nat, x: Worker, trip: bool, v: nat, y: Worker)
    requires WorkerInv(u, g, w, x) && GroupInv(u.members, g) && w in u.members && !Entering(x.pc)
    requires WorkerInv(u, g, v, y) && v in u.members && v != w && !(Solo(x.pc) && Solo(y.pc))
    ensures var e := LeaveStep(u, g, w, x, trip);
            && WorkerInv(u.(running := u.running && !e.fail), e.g, v, y)
            && !(Solo(e.x.pc) && Solo(y.pc))
  {
  }

  lemma ActionFits(u: View, g: Group, w: nat, x: Worker, trip: bool)
    requires WorkerInv(u, g, w, x) && GroupInv(u.members, g) && w in u.members
    requires g.state.Running? && u.owner == u.i ==> g.grant == u.grants
    ensures var e := WorkerAction(u, g, w, x, trip);
            && GroupInv(u.members, e.g)
            && WorkerInv(u.(running := u.running && !e.fail), e.g, w, e.x)
  {
    hide WorkerInv, GroupInv, EnterStep, LeaveStep;
    if Entering(x.pc) {
      EnterKeepsGroup(u, g, w, x, trip);
      EnterFits(u, g, w, x, trip);
    } else {
      LeaveKeepsGroup(u, g, w, x, trip);
      LeaveFits(u, g, w, x, trip);
    }
  }

  lemma ActionSpares(u: View, g: Group, w: nat, x: Worker, trip: bool, v: nat, y: Worker)
    requires WorkerInv(u, g, w, x) && GroupInv(u.members, g) && w in u.members
    requires WorkerInv(u, g, v, y) && v in u.members && v != w && !(Solo(x.pc) && Solo(y.pc))
    ensures var e := WorkerAction(u, g, w, x, trip);
            && WorkerInv(u.(running := u.running && !e.fail), e.g, v, y)
            && !(Solo(e.x.pc) && Solo(y.pc))
  {
    hide WorkerInv, GroupInv, EnterStep, LeaveStep, Solo;
    if Entering(x.pc) { EnterSpares(u, g, w, x, trip, v, y); } else { LeaveSpares(u, g, w, x, trip, v, y); }
  }

  /** A worker never starts, ends or re-labels a granted round; only its owner's workers complete it. */
  lemma ActionKeepsGrant(u: View, g: Group, w: nat, x: Worker, trip: bool)
    requires WorkerInv(u, g, w, x) && GroupInv(u.members, g) && w in u.members
    ensures var g' := WorkerAction(u, g, w, x, trip).g;
            && (Granted(g') <==> Granted(g))
            && (Granted(g) ==> g'.grant == g.grant)
            && (g.state.Complete? ==> g' == g)
            && (g.state.Running? && u.owner != u.i && g.complete == {} ==> g' == g)
  {
  }

  /** Failing the pair does not disturb a worker. */
  lemma FailSpares(u: View, g: Group, v: nat, y: Worker, running: bool)
    requires WorkerInv(u, g, v, y) && (running ==> u.running)
    ensures WorkerInv(u.(running := running), g, v, y)
  {
  }

  lemma WorkerStepKeepsWorkers(s: State, w: nat, trip: bool)
    requires Inv(s) && w < |s.workers|
    requires var i := Instance(s.n, w); s.groups[i].state.Running? && s.owner == i ==> s.groups[i].grant == s.grants
    ensures var s' := Do(s, WorkerStep(w, trip));
            && WorkersInv(s') && SoloInv(s')
            && GroupInv(Members(s.n, 0), s'.groups[0])
            && GroupInv(Members(s.n, 1), s'.groups[1])
  {
    hide WorkerInv, WorkerAction, GroupInv, Solo, CoordInv;
    var i := Instance(s.n, w);
    var u, g, x := ViewOf(s, i), s.groups[i], s.workers[w];
    assert w in Members(s.n, i);
    var e := WorkerAction(u, g, w, x, trip);
    var s' := Apply(s, w, e);
    ActionFits(u, g, w, x, trip);
    forall v | 0 <= v < |s.workers| && v != w
      ensures WorkerInv(ViewOf(s', Instance(s.n, v)), s'.groups[Instance(s.n, v)], v, s.workers[v])
      ensures Instance(s.n, v) == i ==> !(Solo(e.x.pc) && Solo(s.workers[v].pc))
    {
      var y := s.workers[v];
      assert v in Members(s.n, Instance(s.n, v));
      if Instance(s.n, v) == i {
        ActionSpares(u, g, w, x, trip, v, y);
      } else {
        FailSpares(ViewOf(s, 1 - i), s.groups[1 - i], v, y, s'.running);
      }
    }
  }

  lemma WorkerStepKeepsCoord(s: State, w: nat, trip: bool)
    requires Inv(s) && w < |s.workers|
    ensures CoordInv(Do(s, WorkerStep(w, trip)))
  {
    hide WorkerInv, WorkerAction, GroupInv, SoloInv, Solo;
    var i := Instance(s.n, w);
    assert w in Members(s.n, i);
    ActionKeepsGrant(ViewOf(s, i), s.groups[i], w, s.workers[w], trip);
    var s' := Do(s, WorkerStep(w, trip));
    assert s'.groups[1 - i] == s.groups[1 - i];
  }

  lemma OwnerGrantIsNewest(s: State, i: nat)
    requires WellFormed(s) && CoordInv(s) && i < 2 && s.groups[i].state.Running? && s.owner == i
    ensures s.groups[i].grant == s.grants > 0
  {
  }

  // ---------------------------------------------------------------- a coordinator step keeps it

  /** Everything the coordinator can do to what a worker sees. */
  ghost predicate CoordMove(u: View, g: Group, u': View, g': Group) {
    || (g' == g && u' == u)
    || (g' == g && u' == u.(running := false))
    || (u' == u && g.state.Complete? && g' == g.(exited := {}))
    || (u' == u && g.state.Complete? && g.exited == {} && g' == g.(state := Draining))
    || (u' == u && g.state.Ready? && g' == g.(state := Running))
    || (u' == u && g.state.Running? && g.grant == 0 && u.owner == NO_OWNER && g' == g.(grant := g'.grant))
    || (g' == g && u' == u.(owner := NO_OWNER) && !Granted(g))
    || (g' == g && u' == u.(grants := u.grants + 1) && u.owner == NO_OWNER)
    || (g' == g && u' == u.(owner := u'.owner) && u.owner == NO_OWNER)
  }

  lemma MoveSpares(u: View, g: Group, u': View, g': Group, v: nat, y: Worker)
    requires WorkerInv(u, g, v, y) && CoordMove(u, g, u', g') && 0 <= u.i < 2
    requires GroupInv(u.members, g) && v in u.members
    ensures WorkerInv(u', g', v, y)
  {
  }

  lemma CoordMoves(s: State, trip: bool, pick: nat, i: nat)
    requires Inv(s) && CoordReady(s, pick) && i < 2
    ensures var s' := Coordinate(s, trip, pick);
            CoordMove(ViewOf(s, i), s.groups[i], ViewOf(s', i), s'.groups[i])
  {
    hide WorkerInv, GroupInv, SoloInv;
  }

  lemma MoveKeepsGroup(u: View, g: Group, u': View, g': Group)
    requires GroupInv(u.members, g) && CoordMove(u, g, u', g')
    ensures GroupInv(u.members, g')
  {
  }

  predicate Recycling(c: Coord) {
    c.Tick? || c.ReadState? || c.ReadComplete? || c.ClearExit? || c.ToDraining? || c.ReleaseOwner? || c.Recheck?
  }

  lemma RecycleKeeps(s: State, trip: bool, pick: nat)
    requires WellFormed(s) && CoordInv(s) && CoordReady(s, pick) && Recycling(s.coord)
    ensures CoordInv(Coordinate(s, trip, pick))
  {
    if s.coord.ToDraining? {
      var o := s.coord.o;
      assert !Granted(s.groups[1 - o]);
    }
  }

  lemma DispatchKeeps(s: State, trip: bool, pick: nat)
    requires WellFormed(s) && CoordInv(s) && CoordReady(s, pick) && !Recycling(s.coord)
    requires GroupInv(Members(s.n, 0), s.groups[0]) && GroupInv(Members(s.n, 1), s.groups[1])
    ensures CoordInv(Coordinate(s, trip, pick))
  {
  }

  lemma CoordStepKeeps(s: State, trip: bool, pick: nat)
    requires Inv(s) && CoordReady(s, pick)
    ensures CoordInv(Coordinate(s, trip, pick))
  {
    hide WorkersInv, SoloInv, Coordinate, CoordInv, GroupInv;
    if Recycling(s.coord) { RecycleKeeps(s, trip, pick); } else { DispatchKeeps(s, trip, pick); }
  }

  lemma CoordStepKeepsWorkers(s: State, trip: bool, pick: nat)
    requires Inv(s) && CoordReady(s, pick)
    ensures var s' := Coordinate(s, trip, pick);
            && WorkersInv(s') && SoloInv(s')
            && GroupInv(Members(s.n, 0), s'.groups[0])
            && GroupInv(Members(s.n, 1), s'.groups[1])
  {
    hide WorkerInv, GroupInv, CoordInv, CoordMove;
    var s' := Coordinate(s, trip, pick);
    assert s'.workers == s.workers;
    forall i | 0 <= i < 2
      ensures GroupInv(Members(s.n, i), s'.groups[i])
    {
      CoordMoves(s, trip, pick, i);
      MoveKeepsGroup(ViewOf(s, i), s.groups[i], ViewOf(s', i), s'.groups[i]);
    }
    forall v | 0 <= v < |s.workers|
      ensures WorkerInv(ViewOf(s', Instance(s.n, v)), s'.groups[Instance(s.n, v)], v, s'.workers[v])
    {
      var i := Instance(s.n, v);
      assert v in Members(s.n, i);
      CoordMoves(s, trip, pick, i);
      MoveSpares(ViewOf(s, i), s.groups[i], ViewOf(s', i), s'.groups[i], v, s.workers[v]);
    }
  }

  // ---------------------------------------------------------------- theorems

  lemma StepKeeps(s: State, step: Step)
    requires Inv(s) && Enabled(s, step)
    ensures Inv(Do(s, step))
  {
    hide WorkerInv, GroupInv, SoloInv, CoordInv;
    match step
    case WorkerStep(w, trip) =>
      hide WorkerAction;
      if s.groups[Instance(s.n, w)].state.Running? && s.owner == Instance(s.n, w) {
        OwnerGrantIsNewest(s, Instance(s.n, w));
      }
      WorkerStepKeepsWorkers(s, w, trip);
      WorkerStepKeepsCoord(s, w, trip);
    case CoordStep(trip, pick) =>
      CoordStepKeeps(s, trip, pick);
      CoordStepKeepsWorkers(s, trip, pick);
    case Fail => FailKeeps(s);
  }

  lemma FailKeeps(s: State)
    requires Inv(s)
    ensures Inv(s.(running := false))
  {
    hide WorkerInv, GroupInv;
    forall v | 0 <= v < |s.workers|
      ensures WorkerInv(ViewOf(s.(running := false), Instance(s.n, v)), s.groups[Instance(s.n, v)], v, s.workers[v])
    {
      FailSpares(ViewOf(s, Instance(s.n, v)), s.groups[Instance(s.n, v)], v, s.workers[v], false);
    }
  }

  lemma {:induction false} RunKeeps(s: State, steps: seq<Step>, s': State)
    requires Inv(s) && Reaches(s, steps, s')
    ensures Inv(s')
    decreases |steps|
  {
    hide WorkersInv, GroupInv, SoloInv, CoordInv, Do, Enabled;
    if steps != [] {
      StepKeeps(s, steps[0]);
      RunKeeps(Do(s, steps[0]), steps[1..], s');
    }
  }

  lemma InitialHolds(s: State)
    requires Initial(s)
    ensures Inv(s)
  {
  }

  /** A worker in a forward holds the grant; nothing can move under it. */
  lemma InForwardHolds(s: State, w: nat)
    requires Inv(s) && w < |s.workers| && InForward(s.workers[w].pc)
    ensures Holding(ViewOf(s, Instance(s.n, w)), s.groups[Instance(s.n, w)], w, s.workers[w])
  {
    hide CoordInv, GroupInv, SoloInv;
  }

  /** In every run, failed or not, the two instances are never in a forward at the same time. */
  lemma MutualExclusion(s: State, steps: seq<Step>, s': State, v: nat, w: nat)
    requires Initial(s) && Reaches(s, steps, s')
    requires v < |s'.workers| && w < |s'.workers|
    requires InForward(s'.workers[v].pc) && InForward(s'.workers[w].pc)
    ensures Instance(s'.n, v) == Instance(s'.n, w) == s'.owner
  {
    hide Reaches, Inv, Initial, InForward;
    InitialHolds(s);
    RunKeeps(s, steps, s');
    InForwardHolds(s', v);
    InForwardHolds(s', w);
  }

  /** A worker v of an instance with a round running either runs that round or has completed it. */
  lemma SameRound(u: View, g: Group, v: nat, y: Worker)
    requires WorkerInv(u, g, v, y) && GroupInv(u.members, g) && v in u.members && g.state.Running? && y.pc != Aborted
    ensures v in g.complete || y.nextSeq == g.forwardSeq
  {
  }

  /**
   A worker in a forward holds the newest grant ever issued, its whole instance has posted
   READY for the very sequence it runs, no other worker of the instance has moved past that
   round without completing it, and the other instance is not granted.
   */
  lemma LockStepRound(s: State, steps: seq<Step>, s': State, w: nat, v: nat)
    requires Initial(s) && Reaches(s, steps, s') && WellFormed(s')
    requires w < |s'.workers| && InForward(s'.workers[w].pc)
    requires v < |s'.workers| && Instance(s'.n, v) == Instance(s'.n, w) && s'.workers[v].pc != Aborted
    ensures var i := Instance(s'.n, w);
            && s'.workers[w].activeGrant == s'.groups[i].grant == s'.grants > 0
            && s'.groups[i].ready == Members(s'.n, i)
            && !Granted(s'.groups[1 - i])
            && (s'.workers[v].nextSeq == s'.workers[w].activeSeq || v in s'.groups[i].complete)
  {
    hide Reaches, Initial, InForward, WorkerInv, SoloInv;
    InitialHolds(s);
    RunKeeps(s, steps, s');
    InForwardHolds(s', w);
    var i := Instance(s'.n, w);
    OwnerGrantIsNewest(s', i);
    SameRound(ViewOf(s', i), s'.groups[i], v, s'.workers[v]);
  }

  // ---------------------------------------------------------------- no spurious failure

  /** Group and worker agree on `r`, the number of the round being run or, once it drains, the next one. */
  ghost predicate Counts(r: nat, g: Group) {
    && (g.state.Idle? || g.state.Draining? ==> r == g.forwardSeq + 1)
    && (g.state.Initializing? ==> r == g.forwardSeq || r == g.forwardSeq + 1)
    && (g.state.Collecting? || g.state.Ready? || Granted(g) ==> r == g.forwardSeq > 0)
    && r > 0
  }

  ghost predicate WorkerCounts(r: nat, g: Group, x: Worker) {
    match x.pc
    case Unopened => r == 1 && x.activeSeq == 0
    case LoadSeq => r == 1 && x.activeSeq == 0
    case Out => x.nextSeq + 1 == r && x.activeSeq == 0
    case EnterLoop => x.nextSeq == r && x.activeSeq == 0
    case CasInit => x.nextSeq == r && x.activeSeq == 0
    case CheckSeq(st) => x.nextSeq == r && x.activeSeq == 0 && st.Collecting?
    case Init(k) => x.nextSeq == r && x.activeSeq == 0 && (k == 0 ==> g.forwardSeq + 1 == r)
    case GrantSeq(st) => x.activeSeq == 0 && (st.Collecting? || st.Ready? || st.Running?)
    case GrantId(st, sq) => x.activeSeq == 0 && (st.Collecting? || st.Ready? || st.Running?) && sq == g.forwardSeq
    case GrantOwner(st, sq, _) => x.activeSeq == 0 && (st.Collecting? || st.Ready? || st.Running?) && sq == g.forwardSeq
    case DrainSeq(st) => x.nextSeq == g.forwardSeq && (st.Running? || st.Complete? || st.Draining?)
    case Aborted => false
    case pc =>
      if Entering(pc) then x.activeSeq == 0 else x.nextSeq == g.forwardSeq
  }

  /** Nothing has failed and all counters agree. */
  ghost predicate Calm(s: State, r: seq<nat>)
    requires WellFormed(s)
  {
    && s.running
    && |r| == 2
    && Counts(r[0], s.groups[0])
    && Counts(r[1], s.groups[1])
    && (forall w | 0 <= w < |s.workers| ::
          WorkerCounts(r[Instance(s.n, w)], s.groups[Instance(s.n, w)], s.workers[w]))
  }

  /** A worker that opens finds the instance's sequence number still at zero. */
  predicate InTime(s: State, step: Step)
    requires WellFormed(s)
  {
    step.WorkerStep? && step.w < |s.workers| && s.workers[step.w].pc.LoadSeq? ==>
      s.groups[Instance(s.n, step.w)].forwardSeq == 0
  }

  /** A worker that nothing interrupts keeps count, and its fences all hold. */
  lemma EnterCounts(u: View, g: Group, w: nat, x: Worker, r: nat)
    requires WorkerInv(u, g, w, x) && GroupInv(u.members, g) && w in u.members && u.running
    requires Counts(r, g) && WorkerCounts(r, g, x) && Entering(x.pc) && (x.pc.LoadSeq? ==> g.forwardSeq == 0)
    ensures var e := EnterStep(u, g, w, x, false);
            !e.fail && Counts(r, e.g) && WorkerCounts(r, e.g, e.x)
  {
  }

  lemma LeaveCounts(u: View, g: Group, w: nat, x: Worker, r: nat)
    requires WorkerInv(u, g, w, x) && GroupInv(u.members, g) && w in u.members && u.running
    requires Counts(r, g) && WorkerCounts(r, g, x) && !Entering(x.pc)
    ensures var e := LeaveStep(u, g, w, x, false);
            !e.fail && Counts(r, e.g) && WorkerCounts(r, e.g, e.x)
  {
  }

  /** Whoever else is in the group sees the same sequence number, unless a round is being opened. */
  lemma ActionKeepsSeq(u: View, g: Group, w: nat, x: Worker)
    requires WorkerInv(u, g, w, x) && GroupInv(u.members, g)
    ensures var g' := WorkerAction(u, g, w, x, false).g;
            g'.forwardSeq == g.forwardSeq || (x.pc.Init? && g.state.Initializing?)
  {
  }

  lemma SeqChangeCounts(u: View, g: Group, g': Group, v: nat, y: Worker, r: nat)
    requires WorkerInv(u, g, v, y) && WorkerCounts(r, g, y)
    requires g'.forwardSeq == g.forwardSeq || (g.state.Initializing? && u.running && !Solo(y.pc))
    ensures WorkerCounts(r, g', y)
  {
  }

  lemma SoloApart(s: State, v: nat, w: nat)
    requires WellFormed(s) && SoloInv(s) && v < |s.workers| && w < |s.workers| && v != w
    requires Instance(s.n, v) == Instance(s.n, w)
    ensures !(Solo(s.workers[v].pc) && Solo(s.workers[w].pc))
  {
  }

  lemma WorkerStepCalm(s: State, w: nat, r: seq<nat>)
    requires Inv(s) && Calm(s, r) && w < |s.workers| && InTime(s, WorkerStep(w, false))
    ensures Calm(Do(s, WorkerStep(w, false)), r)
  {
    hide WorkerInv, GroupInv, SoloInv, CoordInv, Counts, WorkerCounts, EnterStep, LeaveStep;
    var i := Instance(s.n, w);
    var u, g, x := ViewOf(s, i), s.groups[i], s.workers[w];
    assert w in Members(s.n, i);
    if Entering(x.pc) { EnterCounts(u, g, w, x, r[i]); } else { LeaveCounts(u, g, w, x, r[i]); }
    ActionKeepsSeq(u, g, w, x);
    var s' := Do(s, WorkerStep(w, false));
    forall v | 0 <= v < |s.workers| && v != w
      ensures WorkerCounts(r[Instance(s.n, v)], s'.groups[Instance(s.n, v)], s'.workers[v])
    {
      if Instance(s.n, v) == i {
        if x.pc.Init? { SoloApart(s, v, w); }
        SeqChangeCounts(u, g, s'.groups[i], v, s.workers[v], r[i]);
      }
    }
  }

  /** When a round starts draining, the next round number takes over. */
  function Advance(s: State, step: Step, r: seq<nat>): (r': seq<nat>)
    requires |r| == 2
    ensures |r'| == 2
  {
    if step.CoordStep? && s.coord.ToDraining? && s.coord.o < 2 then r[s.coord.o := r[s.coord.o] + 1] else r
  }

  lemma DrainingCounts(u: View, g: Group, v: nat, y: Worker, r: nat)
    requires WorkerInv(u, g, v, y) && WorkerCounts(r, g, y) && g.state.Complete?
    ensures WorkerCounts(r + 1, g.(state := Draining), y)
  {
  }

  lemma CoordStepCalm(s: State, pick: nat, r: seq<nat>)
    requires Inv(s) && Calm(s, r) && CoordReady(s, pick)
    ensures Calm(Coordinate(s, false, pick), Advance(s, CoordStep(false, pick), r))
  {
    hide WorkerInv, GroupInv, SoloInv, WorkerCounts;
    var s' := Coordinate(s, false, pick);
    var r' := Advance(s, CoordStep(false, pick), r);
    forall v | 0 <= v < |s.workers|
      ensures WorkerCounts(r'[Instance(s.n, v)], s'.groups[Instance(s.n, v)], s'.workers[v])
    {
      var i := Instance(s.n, v);
      if s.coord.ToDraining? && s.coord.o == i {
        DrainingCounts(ViewOf(s, i), s.groups[i], v, s.workers[v], r[i]);
      } else {
        SeqChangeCounts(ViewOf(s, i), s.groups[i], s'.groups[i], v, s.workers[v], r[i]);
      }
    }
  }

  predicate Uninterrupted(step: Step) { !step.Fail? && !step.trip }

  /** A run in which every worker opens before its instance begins the first round. */
  ghost predicate Timely(s: State, steps: seq<Step>)
    requires WellFormed(s)
    decreases |steps|
  {
    steps != [] && Enabled(s, steps[0]) ==> InTime(s, steps[0]) && Timely(Do(s, steps[0]), steps[1..])
  }

  lemma {:induction false} CalmRun(s: State, steps: seq<Step>, s': State, r: seq<nat>) returns (r': seq<nat>)
    requires Inv(s) && |r| == 2 && Calm(s, r) && Reaches(s, steps, s') && Timely(s, steps)
    requires forall k | 0 <= k < |steps| :: Uninterrupted(steps[k])
    ensures Inv(s') && WellFormed(s') && |r'| == 2 && Calm(s', r')
    decreases |steps|
  {
    hide WorkersInv, GroupInv, SoloInv, CoordInv, Calm, Apply, Coordinate;
    r' := r;
    if steps != [] {
      StepKeeps(s, steps[0]);
      assert Uninterrupted(steps[0]);
      match steps[0] {
        case WorkerStep(w, trip) =>
          WorkerStepCalm(s, w, r);
        case CoordStep(trip, pick) =>
          CoordStepCalm(s, pick, r);
      }
      r' := CalmRun(Do(s, steps[0]), steps[1..], s', Advance(s, steps[0], r));
    }
  }

  /**
   A run in which no deadline, heartbeat or validation trips, nobody calls `ps_fail`, and every
   worker opens before its instance begins never fails the pair: no fence fires and no
   worker's call returns an error.
   */
  lemma NoSpuriousFailure(s: State, steps: seq<Step>, s': State)
    requires Initial(s) && Reaches(s, steps, s') && Timely(s, steps)
    requires forall k | 0 <= k < |steps| :: Uninterrupted(steps[k])
    ensures s'.running
    ensures forall w | 0 <= w < |s'.workers| :: s'.workers[w].pc != Aborted
  {
    hide Reaches, Inv;
    InitialHolds(s);
    var r := CalmRun(s, steps, s', [1, 1]);
    forall w | 0 <= w < |s'.workers|
      ensures s'.workers[w].pc != Aborted
    {
      assert WorkerCounts(r[Instance(s'.n, w)], s'.groups[Instance(s'.n, w)], s'.workers[w]);
    }
  }

  // ---------------------------------------------------------------- a worker that opens late

  /** Worker w opened while the first round was being collected without it. */
  ghost predicate Late(g: Group, w: nat, x: Worker) {
    && g.forwardSeq == 1 && w !in g.ready && (g.state.Initializing? || g.state.Collecting?)
    && x.nextSeq >= 1 && (x.pc.EnterLoop? || x.pc.CheckSeq? ==> x.nextSeq >= 2)
    && (x.pc.Out? || x.pc.EnterLoop? || x.pc.Aborted? || x.pc == CheckSeq(Collecting))
  }

  /** ... and nobody is about to store another sequence number. */
  ghost predicate LateInv(s: State, w: nat)
    requires WellFormed(s) && w < |s.workers|
  {
    var i := Instance(s.n, w);
    && Late(s.groups[i], w, s.workers[w])
    && forall v | 0 <= v < |s.workers| && Instance(s.n, v) == i :: s.workers[v].pc != Init(0)
  }

  /** An action of another worker of the instance leaves the round where it is. */
  lemma OtherKeepsLate(u: View, g: Group, v: nat, y: Worker, trip: bool, w: nat, x: Worker)
    requires WorkerInv(u, g, v, y) && GroupInv(u.members, g) && v in u.members && w in u.members && v != w
    requires Late(g, w, x) && y.pc != Init(0)
    ensures var e := WorkerAction(u, g, v, y, trip); Late(e.g, w, x) && e.x.pc != Init(0)
  {
  }

  lemma OwnKeepsLate(u: View, g: Group, w: nat, x: Worker, trip: bool)
    requires Late(g, w, x)
    ensures var e := WorkerAction(u, g, w, x, trip); Late(e.g, w, e.x) && e.x.pc != Init(0)
  {
  }

  lemma WorkerStepKeepsLate(s: State, v: nat, trip: bool, w: nat)
    requires Inv(s) && w < |s.workers| && LateInv(s, w) && v < |s.workers|
    ensures LateInv(Do(s, WorkerStep(v, trip)), w)
  {
    hide WorkerInv, GroupInv, SoloInv, CoordInv, WorkerAction, Late;
    var i := Instance(s.n, w);
    assert w in Members(s.n, i);
    if Instance(s.n, v) == i {
      assert v in Members(s.n, i);
      if v == w {
        OwnKeepsLate(ViewOf(s, i), s.groups[i], w, s.workers[w], trip);
      } else {
        OtherKeepsLate(ViewOf(s, i), s.groups[i], v, s.workers[v], trip, w, s.workers[w]);
      }
    }
  }

  lemma CoordStepKeepsLate(s: State, trip: bool, pick: nat, w: nat)
    requires Inv(s) && CoordReady(s, pick) && w < |s.workers| && LateInv(s, w)
    ensures LateInv(Coordinate(s, trip, pick), w)
  {
    hide WorkerInv, GroupInv, SoloInv, WorkersInv;
    var i := Instance(s.n, w);
    CoordMoves(s, trip, pick, i);
    var s' := Coordinate(s, trip, pick);
    assert s'.workers == s.workers;
    hide CoordInv, Coordinate;
    assert s'.groups[i] == s.groups[i];
  }

  lemma {:induction false} LateRun(s: State, steps: seq<Step>, s': State, w: nat)
    requires Inv(s) && w < |s.workers| && LateInv(s, w) && Reaches(s, steps, s')
    ensures Inv(s') && s'.n == s.n && w < |s'.workers| && LateInv(s', w)
    decreases |steps|
  {
    assert WellFormed(s);
    hide Inv, LateInv, Apply, Coordinate;
    if steps != [] {
      StepKeeps(s, steps[0]);
      match steps[0] {
        case WorkerStep(v, trip) => WorkerStepKeepsLate(s, v, trip, w);
        case CoordStep(trip, pick) => CoordStepKeepsLate(s, trip, pick, w);
        case Fail => FailKeepsLate(s, w);
      }
      assert WellFormed(Do(s, steps[0]));
      LateRun(Do(s, steps[0]), steps[1..], s', w);
    }
  }

  lemma FailKeepsLate(s: State, w: nat)
    requires WellFormed(s) && w < |s.workers| && LateInv(s, w)
    ensures LateInv(s.(running := false), w)
  {
  }

  /** Opening late puts the worker one round ahead of its instance. */
  lemma LateOpen(s: State, r: seq<nat>, w: nat)
    requires Inv(s) && |r| == 2 && Calm(s, r) && w < |s.workers| && s.workers[w].pc.LoadSeq?
    requires s.groups[Instance(s.n, w)].forwardSeq != 0
    ensures LateInv(Do(s, WorkerStep(w, false)), w)
  {
    hide SoloInv, CoordInv;
    var i := Instance(s.n, w);
    var g := s.groups[i];
    assert WorkerInv(ViewOf(s, i), g, w, s.workers[w]) && WorkerCounts(r[i], g, s.workers[w]);
    assert g.state.Initializing? || g.state.Collecting?;
    forall v | 0 <= v < |s.workers| && Instance(s.n, v) == i
      ensures s.workers[v].pc != Init(0)
    {
      assert WorkerInv(ViewOf(s, i), g, v, s.workers[v]) && WorkerCounts(r[i], g, s.workers[v]);
    }
  }

  /**
   The condition is needed: once a worker has opened late, then whatever happens, it can only
   wait or be fenced off, and its instance never executes a round.
   */
  lemma LateOpenerNeverEnters(s: State, steps: seq<Step>, s': State, w: nat, more: seq<Step>, s'': State)
    requires Initial(s) && Reaches(s, steps, s') && Timely(s, steps)
    requires forall k | 0 <= k < |steps| :: Uninterrupted(steps[k])
    requires w < |s'.workers| && s'.workers[w].pc.LoadSeq? && WellFormed(s')
    requires s'.groups[Instance(s'.n, w)].forwardSeq != 0
    requires Reaches(Do(s', WorkerStep(w, false)), more, s'')
    ensures w < |s''.workers|
    ensures var pc := s''.workers[w].pc; pc.Out? || pc.EnterLoop? || pc.CheckSeq? || pc.Aborted?
    ensures forall v | 0 <= v < |s''.workers| && Instance(s''.n, v) == Instance(s''.n, w) :: !InForward(s''.workers[v].pc)
  {
    hide Reaches, Inv, Timely, Initial, Calm, LateInv;
    InitialHolds(s);
    assert Calm(s, [1, 1]) by { InitiallyCalm(s); }
    var r := CalmRun(s, steps, s', [1, 1]);
    LateOpen(s', r, w);
    StepKeeps(s', WorkerStep(w, false));
    LateRun(Do(s', WorkerStep(w, false)), more, s'', w);
    LateMeans(s'', w);
  }

  lemma InitiallyCalm(s: State)
    requires Initial(s)
    ensures Calm(s, [1, 1])
  {
  }

  lemma LateMeans(s: State, w: nat)
    requires Inv(s) && w < |s.workers| && LateInv(s, w)
    ensures var pc := s.workers[w].pc; pc.Out? || pc.EnterLoop? || pc.CheckSeq? || pc.Aborted?
    ensures forall v | 0 <= v < |s.workers| && Instance(s.n, v) == Instance(s.n, w) :: !InForward(s.workers[v].pc)
  {
    hide CoordInv, GroupInv, SoloInv;
    var i := Instance(s.n, w);
    forall v | 0 <= v < |s.workers| && Instance(s.n, v) == i
      ensures !InForward(s.workers[v].pc)
    {
      assert WorkerInv(ViewOf(s, i), s.groups[i], v, s.workers[v]);
    }
  }

  // ---------------------------------------------------------------- late opening, exactly

  /** A group that is being initialized has a worker that does it. */
  ghost predicate Opened(s: State, i: nat)
    requires WellFormed(s) && i < 2
  {
    s.groups[i].state.Initializing? ==>
      exists v: nat :: v < |s.workers| && Instance(s.n, v) == i && s.workers[v].pc.Init?
  }

  /** Only its initializer takes a group out of INITIALIZING, and whoever puts it there becomes one. */
  lemma ActionOpens(u: View, g: Group, w: nat, x: Worker, trip: bool)
    requires WorkerInv(u, g, w, x)
    ensures var e := WorkerAction(u, g, w, x, trip);
            e.g.state.Initializing? ==> if x.pc.Init? then e.x.pc.Init? else g.state.Initializing? || e.x.pc.Init?
  {
  }

  lemma WorkerStepOpens(s: State, w: nat, trip: bool, i: nat)
    requires Inv(s) && w < |s.workers| && i < 2 && Opened(s, i)
    ensures Opened(Do(s, WorkerStep(w, trip)), i)
  {
    hide WorkerInv, GroupInv, SoloInv, CoordInv, WorkerAction;
    var s' := Do(s, WorkerStep(w, trip));
    var j := Instance(s.n, w);
    ActionOpens(ViewOf(s, j), s.groups[j], w, s.workers[w], trip);
    if s'.groups[i].state.Initializing? {
      if j == i && s'.workers[w].pc.Init? {
        assert Instance(s'.n, w) == i;
      } else {
        var v: nat :| v < |s.workers| && Instance(s.n, v) == i && s.workers[v].pc.Init?;
        assert s'.workers[v] == s.workers[v] && Instance(s'.n, v) == i;
      }
    }
  }

  lemma CoordStepOpens(s: State, trip: bool, pick: nat, i: nat)
    requires WellFormed(s) && CoordReady(s, pick) && i < 2 && Opened(s, i)
    ensures Opened(Coordinate(s, trip, pick), i)
  {
    var s' := Coordinate(s, trip, pick);
    assert s'.workers == s.workers;
    if s'.groups[i].state.Initializing? {
      assert s.groups[i].state.Initializing?;
      var v: nat :| v < |s.workers| && Instance(s.n, v) == i && s.workers[v].pc.Init?;
      assert Instance(s'.n, v) == i && s'.workers[v].pc.Init?;
    }
  }

  lemma {:induction false} RunOpens(s: State, steps: seq<Step>, s': State, i: nat)
    requires Inv(s) && i < 2 && Opened(s, i) && Reaches(s, steps, s')
    ensures WellFormed(s') && Opened(s', i)
    decreases |steps|
  {
    assert WellFormed(s);
    hide Inv, Apply, Coordinate;
    if steps != [] {
      StepKeeps(s, steps[0]);
      match steps[0] {
        case WorkerStep(w, trip) => WorkerStepOpens(s, w, trip, i);
        case CoordStep(trip, pick) => CoordStepOpens(s, trip, pick, i);
        case Fail => FailOpens(s, i);
      }
      RunOpens(Do(s, steps[0]), steps[1..], s', i);
    }
  }

  lemma FailOpens(s: State, i: nat)
    requires WellFormed(s) && i < 2 && Opened(s, i)
    ensures Opened(s.(running := false), i)
  {
    if s.groups[i].state.Initializing? {
      var v: nat :| v < |s.workers| && Instance(s.n, v) == i && s.workers[v].pc.Init?;
      assert s.(running := false).workers[v].pc.Init?;
    }
  }

  /** Some continuation in which nothing trips and all others open in time fails the pair. */
  ghost predicate CanFail(s: State)
    requires WellFormed(s)
  {
    exists more: seq<Step>, s': State :: Reaches(s, more, s') && CalmSteps(s, more) && !s'.running
  }

  ghost predicate CalmSteps(s: State, steps: seq<Step>)
    requires WellFormed(s)
  {
    Timely(s, steps) && forall k | 0 <= k < |steps| :: Uninterrupted(steps[k])
  }

  /** The late worker w is on its way to the fence, and v is the initializer it may have to wait for. */
  ghost predicate Doomed(g: Group, w: nat, x: Worker, y: Worker) {
    && Late(g, w, x) && !x.pc.Aborted? && x.activeSeq == 0
    && (g.state.Initializing? ==> y.pc.Init? && y.pc.k > 0)
  }

  /** How far the fence is. */
  function Distance(g: Group, x: Worker, y: Worker): (d: nat)
    ensures d > 0
  {
    (if g.state.Initializing? && y.pc.Init? then 4 + (if y.pc.k < 5 then 5 - y.pc.k else 0) else 0)
    + (if x.pc.Out? then 3 else if x.pc.EnterLoop? then 2 else 1)
  }

  lemma InitializerMoves(u: View, g: Group, w: nat, x: Worker, v: nat, y: Worker)
    requires Doomed(g, w, x, y) && g.state.Initializing?
    ensures var e := WorkerAction(u, g, v, y, false);
            !e.fail && Doomed(e.g, w, x, e.x) && Distance(e.g, x, e.x) < Distance(g, x, y)
  {
  }

  lemma LateMoves(u: View, g: Group, w: nat, x: Worker, y: Worker, y': Worker)
    requires Doomed(g, w, x, y) && !g.state.Initializing? && u.running
    ensures var e := WorkerAction(u, g, w, x, false);
            e.fail || (e.g == g && Doomed(g, w, e.x, y') && Distance(g, e.x, y') < Distance(g, x, y))
  {
  }

  lemma DoomedFails(s: State, w: nat, v: nat)
    requires WellFormed(s) && s.running && w < |s.workers| && v < |s.workers| && Instance(s.n, v) == Instance(s.n, w)
    requires Doomed(s.groups[Instance(s.n, w)], w, s.workers[w], s.workers[v])
    ensures CanFail(s)
    decreases Distance(s.groups[Instance(s.n, w)], s.workers[w], s.workers[v])
  {
    hide WorkerAction, Doomed, Distance, CanFail, Late;
    var i := Instance(s.n, w);
    var u, g, x, y := ViewOf(s, i), s.groups[i], s.workers[w], s.workers[v];
    var m := if g.state.Initializing? then v else w;
    assert !s.workers[m].pc.LoadSeq? && (g.state.Initializing? ==> v != w) by { DoomedOpened(g, w, x, y); }
    var s' := Do(s, WorkerStep(m, false));
    if g.state.Initializing? {
      InitializerMoves(u, g, w, x, v, y);
      DoomedFails(s', w, v);
    } else {
      LateMoves(u, g, w, x, y, s'.workers[v]);
      if s'.running { DoomedFails(s', w, v); } else { FailedFails(s'); }
    }
    FailsBefore(s, m);
  }

  lemma DoomedOpened(g: Group, w: nat, x: Worker, y: Worker)
    requires Doomed(g, w, x, y)
    ensures !x.pc.LoadSeq? && (g.state.Initializing? ==> !y.pc.LoadSeq? && x != y)
  {
  }

  lemma FailedFails(s: State)
    requires WellFormed(s) && !s.running
    ensures CanFail(s)
  {
    assert Reaches(s, [], s) && CalmSteps(s, []);
  }

  lemma FailsBefore(s: State, m: nat)
    requires WellFormed(s) && m < |s.workers| && !s.workers[m].pc.LoadSeq? && CanFail(Do(s, WorkerStep(m, false)))
    ensures CanFail(s)
  {
    hide Do;
    var step := WorkerStep(m, false);
    var more: seq<Step>, t: State :| Reaches(Do(s, step), more, t) && CalmSteps(Do(s, step), more) && !t.running;
    var steps := [step] + more;
    assert steps[0] == step && steps[1..] == more;
    assert Reaches(s, steps, t) && CalmSteps(s, steps);
  }

  /**
   Exactly late openers are a danger: after a run without trips in which everybody has opened
   in time, let worker w open.  The pair can then fail, without a trip and with everybody else
   opening in time, if and only if the instance of w had already begun its first round.
   */
  lemma FailsIffLate(s: State, steps: seq<Step>, s': State, w: nat)
    requires Initial(s) && Reaches(s, steps, s') && CalmSteps(s, steps)
    requires WellFormed(s') && w < |s'.workers| && s'.workers[w].pc.LoadSeq?
    ensures CanFail(Do(s', WorkerStep(w, false))) <==> s'.groups[Instance(s'.n, w)].forwardSeq != 0
  {
    hide Reaches, Inv, Timely, Initial, Calm, LateInv, CanFail, Do, Opened;
    InitialHolds(s);
    assert Calm(s, [1, 1]) by { InitiallyCalm(s); }
    var r := CalmRun(s, steps, s', [1, 1]);
    StepKeeps(s', WorkerStep(w, false));
    if s'.groups[Instance(s'.n, w)].forwardSeq != 0 {
      InitiallyOpened(s, Instance(s'.n, w));
      RunOpens(s, steps, s', Instance(s'.n, w));
      LateCanFail(s', r, w);
    } else {
      WorkerStepCalm(s', w, r);
      CalmCannotFail(Do(s', WorkerStep(w, false)), r);
    }
  }

  lemma InitiallyOpened(s: State, i: nat)
    requires Initial(s) && i < 2
    ensures WellFormed(s) && Opened(s, i)
  {
  }

  lemma CalmCannotFail(s: State, r: seq<nat>)
    requires Inv(s) && |r| == 2 && Calm(s, r)
    ensures !CanFail(s)
  {
    assert WellFormed(s);
    hide Inv, Reaches, Timely;
    forall more: seq<Step>, t: State | Reaches(s, more, t) && CalmSteps(s, more)
      ensures t.running
    {
      var r' := CalmRun(s, more, t, r);
    }
  }

  lemma LateCanFail(s: State, r: seq<nat>, w: nat)
    requires Inv(s) && |r| == 2 && Calm(s, r) && w < |s.workers| && s.workers[w].pc.LoadSeq?
    requires s.groups[Instance(s.n, w)].forwardSeq != 0 && Opened(s, Instance(s.n, w))
    ensures CanFail(Do(s, WorkerStep(w, false)))
  {
    hide WorkerInv, GroupInv, SoloInv, CoordInv, CanFail, Counts, LeaveStep;
    LateOpen(s, r, w);
    var i := Instance(s.n, w);
    var s' := Do(s, WorkerStep(w, false));
    assert WorkerCounts(r[i], s.groups[i], s.workers[w]);
    assert s'.groups[i] == s.groups[i] && s'.workers[w].pc.Out? && s'.running;
    var v: nat := w;
    if s.groups[i].state.Initializing? {
      v :| v < |s.workers| && Instance(s.n, v) == i && s.workers[v].pc.Init?;
      assert s'.workers[v] == s.workers[v];
    }
    DoomedFails(s', w, v);
  }

  /** Worker w takes k steps in a row, nothing tripping. */
  function Alone(s: State, w: nat, k: nat): (r: State)
    requires WellFormed(s) && w < |s.workers|
    ensures WellFormed(r) && r.n == s.n
  {
    if k == 0 then s else Do(Alone(s, w, k - 1), WorkerStep(w, false))
  }

  lemma {:induction false} ReachesSnoc(s: State, steps: seq<Step>, t: State, step: Step)
    requires WellFormed(s) && Reaches(s, steps, t) && WellFormed(t) && Enabled(t, step)
    ensures Reaches(s, steps + [step], Do(t, step))
    decreases |steps|
  {
    hide Do, Enabled;
    if steps == [] {
      assert steps + [step] == [step] && [step][1..] == [];
    } else {
      assert (steps + [step])[0] == steps[0] && (steps + [step])[1..] == steps[1..] + [step];
      ReachesSnoc(Do(s, steps[0]), steps[1..], t, step);
    }
  }

  lemma {:induction false} AloneReaches(s: State, before: seq<Step>, t: State, w: nat, k: nat) returns (steps: seq<Step>)
    requires WellFormed(s) && Reaches(s, before, t) && WellFormed(t) && w < |t.workers|
    requires forall i | 0 <= i < |before| :: Uninterrupted(before[i])
    ensures Reaches(s, steps, Alone(t, w, k)) && forall i | 0 <= i < |steps| :: Uninterrupted(steps[i])
  {
    hide Do;
    if k == 0 {
      steps := before;
    } else {
      var most := AloneReaches(s, before, t, w, k - 1);
      ReachesSnoc(s, most, Alone(t, w, k - 1), WorkerStep(w, false));
      steps := most + [WorkerStep(w, false)];
    }
  }

  /** The state after a worker's steps, as far as its own instance goes. */
  ghost predicate Shows(s: State, g: Group, w: nat, x: Worker) {
    && WellFormed(s) && s.n == 2 && w < 2 && s.groups[0] == g && s.workers[w] == x && s.running
  }

  lemma OneStep(s: State, g: Group, w: nat, x: Worker)
    requires Shows(s, g, w, x)
    ensures var e := WorkerAction(ViewOf(s, 0), g, w, x, false);
            var s' := Do(s, WorkerStep(w, false));
            && s'.groups[0] == e.g && s'.workers[w] == e.x && s'.running == !e.fail
            && s'.owner == s.owner && s'.workers[1 - w] == s.workers[1 - w]
  {
    hide WorkerAction;
  }

  /** Worker 0 opens and begins the first round. */
  lemma FirstBegins(s: State)
    requires Initial(s) && s.n == 2
    ensures var t := Alone(s, 0, 11);
            && t.running && t.groups[0] == Group(Collecting, 1, 0, {}, {}, {})
            && t.workers[1] == Worker(Unopened, 0, 0, 0, 0)
  {
    hide Do, EnterStep, LeaveStep;
    var g, x := s.groups[0], s.workers[0];
    var k := 0;
    while k < 11
      invariant 0 <= k <= 11 && Shows(Alone(s, 0, k), g, 0, x) && Alone(s, 0, k).workers[1] == s.workers[1]
      invariant (g, x) == FirstAt(k)
    {
      var t := Alone(s, 0, k);
      OneStep(t, g, 0, x);
      FirstMoves(ViewOf(t, 0), k);
      g, x := FirstAt(k + 1).0, FirstAt(k + 1).1;
      k := k + 1;
    }
  }

  /** Group and worker while the first worker opens and begins the first round. */
  function FirstAt(k: nat): (Group, Worker) {
    var idle, one := Group(Idle, 0, 0, {}, {}, {}), Worker(Init(0), 1, 0, 0, 0);
    var begun := Group(Initializing, 1, 0, {}, {}, {});
    if k == 0 then (idle, Worker(Unopened, 0, 0, 0, 0))
    else if k == 1 then (idle, Worker(LoadSeq, 0, 0, 0, 0))
    else if k == 2 then (idle, Worker(Out, 0, 0, 0, 0))
    else if k == 3 then (idle, one.(pc := EnterLoop))
    else if k == 4 then (idle, one.(pc := CasInit))
    else if k == 5 then (idle.(state := Initializing), one)
    else if k <= 10 then (begun, one.(pc := Init(k - 5)))
    else (begun.(state := Collecting), one.(pc := SetLast))
  }

  lemma FirstMoves(u: View, k: nat)
    requires u.running && k < 11
    ensures WorkerAction(u, FirstAt(k).0, 0, FirstAt(k).1, false) == Effect(FirstAt(k + 1).1, FirstAt(k + 1).0, false)
  {
  }

  /** Worker 1 opens then, and its first call to enter fails the pair. */
  lemma SecondIsFenced(s: State)
    requires Shows(s, Group(Collecting, 1, 0, {}, {}, {}), 1, Worker(Unopened, 0, 0, 0, 0))
    ensures !Alone(s, 1, 5).running && Alone(s, 1, 5).workers[1].pc.Aborted?
  {
    hide Do;
    var g := Group(Collecting, 1, 0, {}, {}, {});
    assert Alone(s, 1, 0) == s;
    OneStep(Alone(s, 1, 0), g, 1, Worker(Unopened, 0, 0, 0, 0));
    OneStep(Alone(s, 1, 1), g, 1, Worker(LoadSeq, 0, 0, 0, 0));
    OneStep(Alone(s, 1, 2), g, 1, Worker(Out, 1, 0, 0, 0));
    OneStep(Alone(s, 1, 3), g, 1, Worker(EnterLoop, 2, 0, 0, 0));
    OneStep(Alone(s, 1, 4), g, 1, Worker(CheckSeq(Collecting), 2, 0, 0, 0));
  }

  /** It does happen: with two workers, one that opens late fails the pair with nothing tripping. */
  lemma LateOpenerFails(s: State) returns (steps: seq<Step>, s': State)
    requires Initial(s) && s.n == 2
    ensures Reaches(s, steps, s') && (forall i | 0 <= i < |steps| :: Uninterrupted(steps[i])) && !s'.running
    ensures WellFormed(s) && !Timely(s, steps)
    ensures 1 < |s'.workers| && s'.workers[1].pc.Aborted?
  {
    hide Alone, Initial, Do, Timely;
    assert WellFormed(s) && Reaches(s, [], s) by { InitiallyWellFormed(s); }
    var first := AloneReaches(s, [], s, 0, 11);
    FirstBegins(s);
    var t := Alone(s, 0, 11);
    steps := AloneReaches(s, first, t, 1, 5);
    SecondIsFenced(t);
    s' := Alone(t, 1, 5);
    if Timely(s, steps) {
      NoSpuriousFailure(s, steps, s');
      assert false;
    }
  }

  lemma InitiallyWellFormed(s: State)
    requires Initial(s)
    ensures WellFormed(s) && |s.workers| == 2 * s.n
  {
  }
}
