/**
 The operator matrix: a driver selects scenarios and has each run by a worker process of its
 own, to which it hands only a scenario id and a shape index.
 */
module Matrix {
  import opened Basics

  datatype Phase = Preflight | Contention | All

  datatype Outcome = PASS | UNSUPPORTED | BLOCKED_BY_A_ALLREDUCE | SETUP_FAILED | RUNTIME_FAILED | CASE_TIMEOUT | OtherResult

  datatype Wants = Wants(preflight: Option<Outcome>, contention: Option<Outcome>)

  /** An entry of the configuration; every shape makes one scenario. */
  datatype Entry = Entry(id: string, kind: string, shapes: seq<int>, wants: Wants)

  datatype Scenario = Scenario(id: string, kind: string, shape: int, wants: Wants)

  datatype Problem = DuplicateId | EmptyShapes | IndexOutOfRange

  datatype Result<T> = Ok(value: T) | Err(problem: Problem)

  // ---------------------------------------------------------------- the configuration

  function ExpandEntry(e: Entry, n: nat): (ss: seq<Scenario>)
    requires n <= |e.shapes|
    ensures |ss| == n
    ensures forall i | 0 <= i < n :: ss[i] == Scenario(e.id, e.kind, e.shapes[i], e.wants)
  {
    seq(n, i requires 0 <= i < n => Scenario(e.id, e.kind, e.shapes[i], e.wants))
  }

  function Expand(entries: seq<Entry>): seq<Scenario> {
    if entries == [] then []
    else var e := entries[|entries| - 1]; Expand(entries[..|entries| - 1]) + ExpandEntry(e, |e.shapes|)
  }

  ghost predicate UniqueIds(entries: seq<Entry>) {
    forall i, j | 0 <= i < j < |entries| :: entries[i].id != entries[j].id
  }

  /** Scenarios of one id are all of one kind. */
  ghost predicate OneKind(ss: seq<Scenario>) {
    forall i, j | 0 <= i < |ss| && 0 <= j < |ss| && ss[i].id == ss[j].id :: ss[i].kind == ss[j].kind
  }

  lemma {:induction false} ExpandedIs(entries: seq<Entry>, s: Scenario) returns (i: nat)
    requires s in Expand(entries)
    ensures i < |entries| && s.id == entries[i].id && s.kind == entries[i].kind
    decreases |entries|
  {
    var n := |entries| - 1;
    if s in Expand(entries[..n]) {
      i := ExpandedIs(entries[..n], s);
    } else {
      i := n;
    }
  }

  lemma ExpandOneKind(entries: seq<Entry>)
    requires UniqueIds(entries)
    ensures OneKind(Expand(entries))
  {
    var ss := Expand(entries);
    forall i, j | 0 <= i < |ss| && 0 <= j < |ss| && ss[i].id == ss[j].id
      ensures ss[i].kind == ss[j].kind
    {
      var a := ExpandedIs(entries, ss[i]);
      var b := ExpandedIs(entries, ss[j]);
    }
  }

  /** Loading refuses a repeated id or an entry without shapes and otherwise expands every entry. */
  method LoadConfig(entries: seq<Entry>) returns (out: Result<seq<Scenario>>)
    ensures out.Ok? ==> UniqueIds(entries) && out.value == Expand(entries)
    ensures out.Ok? <==> UniqueIds(entries) && forall i | 0 <= i < |entries| :: entries[i].shapes != []
  {
    var scenarios: seq<Scenario>, seen: set<string> := [], {};
    for n := 0 to |entries|
      invariant UniqueIds(entries[..n]) && scenarios == Expand(entries[..n])
      invariant forall i | 0 <= i < n :: entries[i].id in seen && entries[i].shapes != []
      invariant forall id | id in seen :: exists i :: 0 <= i < n && entries[i].id == id
    {
      var e := entries[n];
      assert entries[..n + 1][..n] == entries[..n];
      if e.id in seen { return Err(DuplicateId); }
      seen := seen + {e.id};
      if e.shapes == [] { return Err(EmptyShapes); }
      var before := scenarios;
      for k := 0 to |e.shapes|
        invariant scenarios == before + ExpandEntry(e, k)
      {
        assert ExpandEntry(e, k + 1) == ExpandEntry(e, k) + [Scenario(e.id, e.kind, e.shapes[k], e.wants)];
        scenarios := scenarios + [Scenario(e.id, e.kind, e.shapes[k], e.wants)];
      }
    }
    assert entries[..|entries|] == entries;
    out := Ok(scenarios);
  }

  // ---------------------------------------------------------------- selecting and handing over

  datatype Filter = Filter(ids: Option<set<string>>, kind: Option<string>)

  predicate Keeps(f: Filter, s: Scenario) {
    (f.ids.Some? ==> s.id in f.ids.value) && (f.kind.Some? ==> s.kind == f.kind.value)
  }

  function Select(ss: seq<Scenario>, f: Filter): seq<Scenario> {
    if ss == [] then []
    else Select(ss[..|ss| - 1], f) + if Keeps(f, ss[|ss| - 1]) then [ss[|ss| - 1]] else []
  }

  /** The scenarios of one id, in order. */
  function GroupOf(ss: seq<Scenario>, id: string): seq<Scenario> {
    if ss == [] then []
    else GroupOf(ss[..|ss| - 1], id) + if ss[|ss| - 1].id == id then [ss[|ss| - 1]] else []
  }

  /** A filter keeps all the scenarios of an id or none. */
  lemma {:induction false} GroupKept(ss: seq<Scenario>, f: Filter, id: string, kept: bool)
    requires forall i | 0 <= i < |ss| && ss[i].id == id :: Keeps(f, ss[i]) == kept
    ensures GroupOf(Select(ss, f), id) == if kept then GroupOf(ss, id) else []
    decreases |ss|
  {
    if ss != [] {
      var n := |ss| - 1;
      var before := Select(ss[..n], f);
      assert Select(ss, f) == if Keeps(f, ss[n]) then before + [ss[n]] else before;
      GroupSnoc(before, ss[n], id);
      assert ss == ss[..n] + [ss[n]];
      GroupSnoc(ss[..n], ss[n], id);
      hide Keeps, GroupOf, Select;
      GroupKept(ss[..n], f, id, kept);
    }
  }

  lemma GroupSnoc(ss: seq<Scenario>, s: Scenario, id: string)
    ensures GroupOf(ss + [s], id) == if s.id == id then GroupOf(ss, id) + [s] else GroupOf(ss, id)
  {
    assert (ss + [s])[..|ss|] == ss;
  }

  datatype Job = Job(scenario: Scenario, shapeIndex: nat, attempt: nat)

  /** The k-th selected scenario is handed over with its place among those of its id. */
  function ShapeIndex(selected: seq<Scenario>, k: nat): nat
    requires k < |selected|
  {
    |GroupOf(selected[..k], selected[k].id)|
  }

  lemma {:induction false} PlaceInGroup(ss: seq<Scenario>, k: nat, n: nat)
    requires k < n <= |ss|
    ensures ShapeIndex(ss, k) < |GroupOf(ss[..n], ss[k].id)| && GroupOf(ss[..n], ss[k].id)[ShapeIndex(ss, k)] == ss[k]
    decreases n
  {
    assert ss[..n][..n - 1] == ss[..n - 1];
    if k < n - 1 { PlaceInGroup(ss, k, n - 1); }
  }

  function WorkerPick(scenarios: seq<Scenario>, id: string, index: int): Result<Scenario> {
    var matching := GroupOf(scenarios, id);
    if 0 <= index < |matching| then Ok(matching[index]) else Err(IndexOutOfRange)
  }

  lemma {:induction false} SelectedIs(ss: seq<Scenario>, f: Filter, s: Scenario)
    ensures s in Select(ss, f) <==> s in ss && Keeps(f, s)
    decreases |ss|
  {
    if ss != [] {
      SelectedIs(ss[..|ss| - 1], f, s);
      assert ss == ss[..|ss| - 1] + [ss[|ss| - 1]];
    }
  }

  lemma KeptTogether(ss: seq<Scenario>, f: Filter, s: Scenario)
    requires OneKind(ss) && s in ss && Keeps(f, s)
    ensures forall i | 0 <= i < |ss| && ss[i].id == s.id :: Keeps(f, ss[i])
  {
    var j :| 0 <= j < |ss| && ss[j] == s;
  }

  lemma KeptGroup(ss: seq<Scenario>, f: Filter, s: Scenario)
    requires OneKind(ss) && s in Select(ss, f)
    ensures GroupOf(Select(ss, f), s.id) == GroupOf(ss, s.id)
  {
    hide Select, Keeps, OneKind, GroupOf;
    SelectedIs(ss, f, s);
    KeptTogether(ss, f, s);
    GroupKept(ss, f, s.id, true);
  }

  /** The worker, which does not filter, runs the very scenario the driver selected. */
  lemma Handoff(entries: seq<Entry>, f: Filter, k: nat)
    requires UniqueIds(entries) && k < |Select(Expand(entries), f)|
    ensures var selected := Select(Expand(entries), f);
            WorkerPick(Expand(entries), selected[k].id, ShapeIndex(selected, k)) == Ok(selected[k])
  {
    hide Expand, Select, OneKind, GroupOf;
    var ss := Expand(entries);
    var selected := Select(ss, f);
    ExpandOneKind(entries);
    KeptGroup(ss, f, selected[k]);
    PlaceInGroup(selected, k, |selected|);
    assert selected[..|selected|] == selected;
  }

  /** The worker picks what the driver selected, whatever the filter. */
  ghost predicate HandsOver(ss: seq<Scenario>) {
    forall f: Filter, k: nat | k < |Select(ss, f)| ::
      WorkerPick(ss, Select(ss, f)[k].id, ShapeIndex(Select(ss, f), k)) == Ok(Select(ss, f)[k])
  }

  lemma HandoffOneKind(ss: seq<Scenario>, f: Filter, k: nat)
    requires OneKind(ss) && k < |Select(ss, f)|
    ensures WorkerPick(ss, Select(ss, f)[k].id, ShapeIndex(Select(ss, f), k)) == Ok(Select(ss, f)[k])
  {
    hide Select, OneKind, GroupOf;
    var selected := Select(ss, f);
    KeptGroup(ss, f, selected[k]);
    PlaceInGroup(selected, k, |selected|);
    assert selected[..|selected|] == selected;
  }

  /** A scenario stands first among those of its id exactly if none of its id comes before it. */
  lemma {:induction false} FirstOfGroup(ss: seq<Scenario>, id: string) returns (k: nat)
    requires GroupOf(ss, id) != []
    ensures k < |ss| && ss[k].id == id && GroupOf(ss[..k], id) == [] && GroupOf(ss, id)[0] == ss[k]
    decreases |ss|
  {
    var n := |ss| - 1;
    if GroupOf(ss[..n], id) == [] {
      k := n;
    } else {
      k := FirstOfGroup(ss[..n], id);
      assert ss[..n][..k] == ss[..k];
    }
  }

  lemma {:induction false} InGroup(ss: seq<Scenario>, s: Scenario)
    ensures s in GroupOf(ss, s.id) <==> s in ss
    decreases |ss|
  {
    if ss != [] {
      InGroup(ss[..|ss| - 1], s);
      assert ss == ss[..|ss| - 1] + [ss[|ss| - 1]];
    }
  }

  /** With two kinds under an id, the filter by the kind that comes later makes the worker pick the earlier one. */
  lemma MixedKindsMislead(ss: seq<Scenario>, s: Scenario)
    requires s in ss && GroupOf(ss, s.id) != [] && GroupOf(ss, s.id)[0].kind != s.kind
    ensures !HandsOver(ss)
  {
    var f := Filter(None, Some(s.kind));
    var selected := Select(ss, f);
    SelectedIs(ss, f, s);
    InGroup(selected, s);
    var k := FirstOfGroup(selected, s.id);
    SelectedIs(ss, f, selected[k]);
    hide Select, GroupOf;
    assert selected[k].kind == s.kind && ShapeIndex(selected, k) == 0;
    assert WorkerPick(ss, selected[k].id, 0) == Ok(GroupOf(ss, s.id)[0]);
  }

  /** The hand-over is right for every filter if and only if scenarios of one id are of one kind. */
  lemma HandoffIff(ss: seq<Scenario>)
    ensures HandsOver(ss) <==> OneKind(ss)
  {
    if OneKind(ss) {
      forall f: Filter, k: nat | k < |Select(ss, f)|
        ensures WorkerPick(ss, Select(ss, f)[k].id, ShapeIndex(Select(ss, f), k)) == Ok(Select(ss, f)[k])
      {
        HandoffOneKind(ss, f, k);
      }
    } else {
      var i, j :| 0 <= i < |ss| && 0 <= j < |ss| && ss[i].id == ss[j].id && ss[i].kind != ss[j].kind;
      InGroup(ss, ss[i]);
      hide HandsOver, GroupOf;
      MixedKindsMislead(ss, if GroupOf(ss, ss[i].id)[0].kind != ss[i].kind then ss[i] else ss[j]);
    }
  }

  /** The cases of a run: every attempt of every selected scenario, with its shape index. */
  function JobsOf(selected: seq<Scenario>, n: nat, repeat: nat): (jobs: seq<Job>)
    requires n <= |selected|
    ensures |jobs| == n * repeat
  {
    if n == 0 then []
    else
      JobsOf(selected, n - 1, repeat)
      + seq(repeat, a requires 0 <= a < repeat => Job(selected[n - 1], ShapeIndex(selected, n - 1), a + 1))
  }

  /** Every job is an attempt of a selected scenario under that scenario's shape index. */
  lemma {:induction false} JobIs(selected: seq<Scenario>, n: nat, repeat: nat, job: Job) returns (k: nat)
    requires n <= |selected| && job in JobsOf(selected, n, repeat)
    ensures k < n && job.scenario == selected[k] && job.shapeIndex == ShapeIndex(selected, k) && 1 <= job.attempt <= repeat
    decreases n
  {
    if job in JobsOf(selected, n - 1, repeat) {
      k := JobIs(selected, n - 1, repeat, job);
    } else {
      k := n - 1;
    }
  }

  /** Earlier scenarios of the same id have smaller shape indices. */
  lemma ShapeIndexGrows(selected: seq<Scenario>, i: nat, k: nat)
    requires i < k < |selected| && selected[i].id == selected[k].id
    ensures ShapeIndex(selected, i) < ShapeIndex(selected, k)
  {
    PlaceInGroup(selected, i, k);
  }

  lemma {:induction false} JobsDistinct(selected: seq<Scenario>, n: nat, repeat: nat)
    requires n <= |selected|
    ensures DistinctJobs(JobsOf(selected, n, repeat))
    decreases n
  {
    if n > 0 {
      JobsDistinct(selected, n - 1, repeat);
      var before := JobsOf(selected, n - 1, repeat);
      forall job | job in before
        ensures job.scenario.id != selected[n - 1].id || job.shapeIndex != ShapeIndex(selected, n - 1)
      {
        var k := JobIs(selected, n - 1, repeat, job);
        if selected[k].id == selected[n - 1].id { ShapeIndexGrows(selected, k, n - 1); }
      }
      hide ShapeIndex;
      assert forall i | 0 <= i < |before| :: before[i] in before;
    }
  }

  ghost predicate DistinctJobs(jobs: seq<Job>) {
    forall i, j | 0 <= i < j < |jobs| :: jobs[i] != jobs[j]
  }

  // ---------------------------------------------------------------- running

  datatype Record = Record(job: Job, phase: Phase, result: Outcome, met: bool)

  predicate Infrastructure(r: Outcome) { r.SETUP_FAILED? || r.RUNTIME_FAILED? || r.CASE_TIMEOUT? }

  function Wanted(job: Job, phase: Phase): Option<Outcome> {
    if phase.Preflight? then job.scenario.wants.preflight else job.scenario.wants.contention
  }

  /** One isolated run; what the worker reports is given by the number of the run. */
  function RunIsolated(oracle: nat -> Outcome, n: nat, job: Job, phase: Phase): Record {
    var e := Wanted(job, phase);
    Record(job, phase, oracle(n), e.None? || e.value == oracle(n))
  }

  /** In phase `all`, a contention run comes right after a passed preflight of the same case and attempt. */
  ghost predicate GuardedByPreflight(records: seq<Record>) {
    forall n | 0 <= n < |records| && records[n].phase.Contention? ::
      n > 0 && records[n - 1].phase.Preflight? && records[n - 1].job == records[n].job && records[n - 1].result.PASS?
  }

  ghost predicate Faithful(records: seq<Record>, oracle: nat -> Outcome) {
    forall n | 0 <= n < |records| :: records[n] == RunIsolated(oracle, n, records[n].job, records[n].phase)
  }

  ghost predicate NoFailure(records: seq<Record>) {
    forall n | 0 <= n < |records| :: !Infrastructure(records[n].result)
  }

  ghost predicate Ran(records: seq<Record>, job: Job, phase: Phase) {
    exists n :: 0 <= n < |records| && records[n].job == job && records[n].phase == phase
  }

  ghost predicate Passed(records: seq<Record>, job: Job) {
    exists n :: 0 <= n < |records| && records[n].job == job && records[n].phase.Preflight? && records[n].result.PASS?
  }

  /** What the phase asks for has been run for this job. */
  ghost predicate Served(records: seq<Record>, job: Job, phase: Phase) {
    match phase
    case Preflight => Ran(records, job, Preflight)
    case Contention => Ran(records, job, Contention)
    case All => Ran(records, job, Preflight) && (Passed(records, job) ==> Ran(records, job, Contention))
  }

  /** One case: the preflight, then the contention run unless the preflight rules it out. */
  method RunCase(job: Job, phase: Phase, failFast: bool, oracle: nat -> Outcome, before: seq<Record>)
    returns (records: seq<Record>, aborted: bool)
    requires Faithful(before, oracle) && (phase.All? ==> GuardedByPreflight(before))
    requires forall n | 0 <= n < |before| :: before[n].job != job
    requires failFast ==> NoFailure(before)
    ensures before <= records && Faithful(records, oracle) && (phase.All? ==> GuardedByPreflight(records))
    ensures forall n | |before| <= n < |records| :: records[n].job == job
    ensures !aborted ==> Served(records, job, phase) && (failFast ==> NoFailure(records))
    ensures aborted ==> failFast && records != [] && Infrastructure(records[|records| - 1].result) && NoFailure(records[..|records| - 1])
  {
    hide Faithful, GuardedByPreflight, NoFailure, RunIsolated;
    records := before;
    if phase.Preflight? || phase.All? {
      var r := RunIsolated(oracle, |records|, job, Preflight);
      AddRun(records, oracle, job, Preflight);
      Snoc(records, r);
      records := records + [r];
      assert records[|before|] == r;
      if failFast && Infrastructure(r.result) { return records, true; }
      if phase.All? && r.result != PASS {
        NotPassed(before, job, r);
        return records, false;
      }
    }
    if phase.Contention? || phase.All? {
      var r := RunIsolated(oracle, |records|, job, Contention);
      AddRun(records, oracle, job, Contention);
      Snoc(records, r);
      ghost var earlier := records;
      records := records + [r];
      assert phase.All? ==> records[|before|] == earlier[|before|];
      assert records[|earlier|] == r;
      if failFast && Infrastructure(r.result) { return records, true; }
    }
    aborted := false;
  }

  lemma AddRun(records: seq<Record>, oracle: nat -> Outcome, job: Job, phase: Phase)
    requires Faithful(records, oracle)
    ensures var r := RunIsolated(oracle, |records|, job, phase);
            && r.job == job && r.phase == phase && Faithful(records + [r], oracle)
            && (GuardedByPreflight(records) && (phase.Preflight? ||
                 (phase.Contention? && records != [] && var p := records[|records| - 1];
                   p.phase.Preflight? && p.job == job && p.result.PASS?))
               ==> GuardedByPreflight(records + [r]))
  {
  }

  lemma Snoc(records: seq<Record>, r: Record)
    ensures (records + [r])[..|records|] == records
    ensures NoFailure(records + [r]) <==> NoFailure(records) && !Infrastructure(r.result)
  {
    assert (records + [r])[|records|] == r;
    assert forall n | 0 <= n < |records| :: records[n] == (records + [r])[n];
  }

  lemma NotPassed(before: seq<Record>, job: Job, r: Record)
    requires r.job == job && r.phase.Preflight? && !r.result.PASS? && forall n | 0 <= n < |before| :: before[n].job != job
    ensures Served(before + [r], job, All)
  {
    assert (before + [r])[|before|] == r;
  }

  /**
   All cases in order.  Under fail-fast an infrastructure failure can only be the last
   record; otherwise every case is served.  The exit code is 2 exactly when there was an
   infrastructure failure or an expectation was not met.
   */
  method RunMatrix(jobs: seq<Job>, phase: Phase, failFast: bool, oracle: nat -> Outcome) returns (records: seq<Record>, code: nat)
    requires DistinctJobs(jobs)
    ensures Faithful(records, oracle) && (phase.All? ==> GuardedByPreflight(records))
    ensures failFast ==> records == [] || NoFailure(records[..|records| - 1])
    ensures !failFast || NoFailure(records) ==> forall k | 0 <= k < |jobs| :: Served(records, jobs[k], phase)
    ensures forall n | 0 <= n < |records| :: records[n].job in jobs
    ensures code == 0 || code == 2
    ensures code == 0 <==> NoFailure(records) && forall n | 0 <= n < |records| :: records[n].met
  {
    records := [];
    var aborted, k := false, 0;
    while k < |jobs| && !aborted
      invariant 0 <= k <= |jobs|
      invariant Faithful(records, oracle) && (phase.All? ==> GuardedByPreflight(records))
      invariant forall n | 0 <= n < |records| :: records[n].job in jobs[..k]
      invariant !aborted ==> (failFast ==> NoFailure(records)) && forall i | 0 <= i < k :: Served(records, jobs[i], phase)
      invariant aborted ==> failFast && records != [] && Infrastructure(records[|records| - 1].result) && NoFailure(records[..|records| - 1])
      decreases |jobs| - k
    {
      ghost var before := records;
      assert jobs[k] !in jobs[..k];
      records, aborted := RunCase(jobs[k], phase, failFast, oracle, records);
      if !aborted {
        forall i | 0 <= i < k
          ensures Served(records, jobs[i], phase)
        {
          StaysServed(before, records, jobs[i], jobs[k], phase);
        }
      }
      assert jobs[..k + 1] == jobs[..k] + [jobs[k]];
      k := k + 1;
    }
    assert !failFast || NoFailure(records) ==> !aborted;
    var bad := false;
    for n := 0 to |records|
      invariant bad <==> exists i :: 0 <= i < n && (Infrastructure(records[i].result) || !records[i].met)
    {
      if Infrastructure(records[n].result) || !records[n].met { bad := true; }
    }
    code := if bad then 2 else 0;
  }

  /** Later cases do not undo what an earlier one has been given. */
  lemma StaysServed(before: seq<Record>, after: seq<Record>, job: Job, other: Job, phase: Phase)
    requires before <= after && job != other && Served(before, job, phase)
    requires forall n | |before| <= n < |after| :: after[n].job == other
    ensures Served(after, job, phase)
  {
    assert forall n | 0 <= n < |before| :: after[n] == before[n];
    forall ph | Ran(before, job, ph)
      ensures Ran(after, job, ph)
    {
      var n :| 0 <= n < |before| && before[n].job == job && before[n].phase == ph;
      assert after[n] == before[n];
    }
    if Passed(after, job) {
      var n :| 0 <= n < |after| && after[n].job == job && after[n].phase.Preflight? && after[n].result.PASS?;
      assert before[n] == after[n];
    }
  }

  /**
   The driver from configuration to exit code: every record comes from a worker that ran the
   very scenario selected for it, and the rest is as RunMatrix says for all cases selected.
   */
  method Drive(entries: seq<Entry>, f: Filter, repeat: nat, phase: Phase, failFast: bool, oracle: nat -> Outcome)
    returns (loaded: bool, records: seq<Record>, code: nat)
    ensures loaded <==> UniqueIds(entries) && forall i | 0 <= i < |entries| :: entries[i].shapes != []
    ensures loaded ==> forall n | 0 <= n < |records| ::
              var job := records[n].job;
              WorkerPick(Expand(entries), job.scenario.id, job.shapeIndex) == Ok(job.scenario) && Keeps(f, job.scenario)
    ensures loaded && (!failFast || NoFailure(records)) ==>
              var selected := Select(Expand(entries), f);
              forall job | job in JobsOf(selected, |selected|, repeat) :: Served(records, job, phase)
    ensures loaded ==> Faithful(records, oracle) && (phase.All? ==> GuardedByPreflight(records))
    ensures loaded ==> (code == 0 <==> NoFailure(records) && forall n | 0 <= n < |records| :: records[n].met)
  {
    hide Served, Faithful, GuardedByPreflight, NoFailure, DistinctJobs, UniqueIds, Expand, Select, JobsOf;
    var config := LoadConfig(entries);
    if config.Err? { return false, [], 2; }
    var selected := Select(config.value, f);
    var jobs := JobsOf(selected, |selected|, repeat);
    JobsDistinct(selected, |selected|, repeat);
    records, code := RunMatrix(jobs, phase, failFast, oracle);
    loaded := true;
    forall n | 0 <= n < |records|
      ensures var job := records[n].job;
              WorkerPick(Expand(entries), job.scenario.id, job.shapeIndex) == Ok(job.scenario) && Keeps(f, job.scenario)
    {
      var k := JobIs(selected, |selected|, repeat, records[n].job);
      Handoff(entries, f, k);
      SelectedIs(Expand(entries), f, selected[k]);
    }
  }
}
