/**
 The probe's outer loop: the selected cases are run batch by batch, and the exit code is
 computed from the results of all batches together.

 What one batch returns is an outcome of the protocol in `Probe`; a batch may also raise.
 */
module ProbeBatches {
  import opened Probe

  datatype Task = Task(name: string, attempt: nat)

  datatype Result = Result(task: Task, status: Status)

  datatype Outcome = Raised | Returned(statuses: seq<Status>)

  /** What one batch of n tasks can come back with. */
  ghost predicate Possible(o: Outcome, n: nat) {
    o.Returned? ==> |o.statuses| == n && Shape(o.statuses)
  }

  /** Every finished run of the protocol is such an outcome. */
  lemma RunIsPossible(s: State, steps: seq<Step>, s': State)
    requires Initial(s) && Reaches(s, steps, s') && s'.coord.Finished?
    ensures Possible(Returned(s'.results), Tasks(s.cfg))
  {
    hide Initial, Reaches, Shape, Inv;
    InitialHolds(s);
    RunKeeps(s, steps, s');
    OutcomeShape(s, steps, s');
  }

  // ---------------------------------------------------------------- tasks

  function Attempts(name: string, repeat: nat): (ts: seq<Task>)
    ensures |ts| == repeat
    ensures forall i | 0 <= i < repeat :: ts[i] == Task(name, i + 1)
  {
    seq(repeat, i requires 0 <= i < repeat => Task(name, i + 1))
  }

  /** Every attempt of every case, in order. */
  function TasksOf(names: seq<string>, repeat: nat): seq<Task> {
    if names == [] then [] else Attempts(names[0], repeat) + TasksOf(names[1..], repeat)
  }

  lemma {:induction false} TasksOfConcat(a: seq<string>, b: seq<string>, repeat: nat)
    ensures TasksOf(a + b, repeat) == TasksOf(a, repeat) + TasksOf(b, repeat)
  {
    if a == [] {
      assert a + b == b;
    } else {
      assert (a + b)[1..] == a[1..] + b;
      TasksOfConcat(a[1..], b, repeat);
    }
  }

  lemma {:induction false} TasksOfNonEmpty(names: seq<string>, repeat: nat)
    requires names != [] && repeat > 0
    ensures TasksOf(names, repeat) != []
  {
    assert |Attempts(names[0], repeat)| > 0;
  }

  // ---------------------------------------------------------------- results

  function TasksIn(results: seq<Result>): (ts: seq<Task>)
    ensures |ts| == |results|
  {
    seq(|results|, i requires 0 <= i < |results| => results[i].task)
  }

  ghost predicate NoBad(results: seq<Result>) {
    forall i | 0 <= i < |results| ::
      !results[i].status.SETUP_FAILED? && !results[i].status.SKIP? && !results[i].status.BLOCKED?
  }

  ghost predicate AllPass(results: seq<Result>) {
    forall i | 0 <= i < |results| :: results[i].status.PASS?
  }

  ghost predicate Has(results: seq<Result>, status: Status) {
    exists i :: 0 <= i < |results| && results[i].status == status
  }

  /** A NOT_RUN never stands alone, so results without a bad status are all PASS. */
  lemma ShapeOfPasses(statuses: seq<Status>, results: seq<Result>)
    requires Shape(statuses) && |statuses| == |results|
    requires forall i | 0 <= i < |results| :: results[i].status == statuses[i]
    ensures NoBad(results) ==> AllPass(results)
  {
    var k :| 0 <= k <= |statuses| && ShapeAt(statuses, k);
    if k < |statuses| {
      assert results[k].status == statuses[k];
    }
  }

  /** The tasks beyond the results so far are appended as NOT_RUN. */
  method MarkNotRun(tasks: seq<Task>, results: seq<Result>) returns (out: seq<Result>)
    requires |results| <= |tasks|
    ensures |out| == |tasks| && out[..|results|] == results
    ensures forall i | |results| <= i < |tasks| :: out[i] == Result(tasks[i], NOT_RUN)
  {
    out := results;
    while |out| < |tasks|
      invariant |results| <= |out| <= |tasks|
      invariant out[..|results|] == results
      invariant forall i | |results| <= i < |out| :: out[i] == Result(tasks[i], NOT_RUN)
    {
      out := out + [Result(tasks[|out|], NOT_RUN)];
    }
  }

  /** The results of one batch: those of the protocol, or the made-up ones of a batch that raised. */
  method BatchResults(tasks: seq<Task>, o: Outcome) returns (out: seq<Result>)
    requires tasks != [] && Possible(o, |tasks|)
    ensures TasksIn(out) == tasks
    ensures o.Raised? ==> Has(out, SETUP_FAILED)
    ensures NoBad(out) ==> AllPass(out)
  {
    if o.Raised? {
      out := MarkNotRun(tasks, [Result(tasks[0], SETUP_FAILED)]);
      assert out[0] == out[..1][0];
    } else {
      out := seq(|tasks|, i requires 0 <= i < |tasks| && |o.statuses| == |tasks| => Result(tasks[i], o.statuses[i]));
      ShapeOfPasses(o.statuses, out);
    }
  }

  function Cut(names: seq<string>, size: nat): (n: nat)
    requires size > 0
    ensures n <= |names| && (names != [] ==> n > 0)
  {
    if size < |names| then size else |names|
  }

  /** One possible outcome per batch, the last batch being as short as it needs to be. */
  ghost predicate Fits(names: seq<string>, repeat: nat, size: nat, outcomes: seq<Outcome>)
    requires size > 0
    decreases |names|
  {
    if names == [] then outcomes == []
    else
      var n := Cut(names, size);
      outcomes != [] && Possible(outcomes[0], |TasksOf(names[..n], repeat)|) && Fits(names[n..], repeat, size, outcomes[1..])
  }

  method CountStatus(results: seq<Result>, status: Status) returns (n: nat)
    ensures n == 0 <==> !Has(results, status)
  {
    n := 0;
    for i := 0 to |results|
      invariant n == 0 <==> forall j | 0 <= j < i :: results[j].status != status
    {
      if results[i].status == status { n := n + 1; }
    }
  }

  /**
   The whole probe.  There is one result per selected case and attempt, in order, whatever
   the batches do; and the exit code is 0 exactly when all of them are PASS.
   */
  method ExitCode(names: seq<string>, repeat: nat, size: nat, outcomes: seq<Outcome>)
    returns (results: seq<Result>, code: nat)
    requires repeat > 0 && size > 0 && Fits(names, repeat, size, outcomes)
    ensures TasksIn(results) == TasksOf(names, repeat)
    ensures code == 0 <==> AllPass(results)
    ensures code == 2 <==> Has(results, SETUP_FAILED) || Has(results, SKIP)
    ensures code == 1 <==> Has(results, BLOCKED) && code != 2
    ensures Raised in outcomes ==> code == 2
  {
    results := [];
    var offset, b := 0, 0;
    while offset < |names|
      invariant 0 <= offset <= |names| && 0 <= b <= |outcomes|
      invariant Fits(names[offset..], repeat, size, outcomes[b..])
      invariant TasksIn(results) == TasksOf(names[..offset], repeat)
      invariant NoBad(results) ==> AllPass(results)
      invariant Raised in outcomes[..b] ==> Has(results, SETUP_FAILED)
    {
      var rest := names[offset..];
      var n := Cut(rest, size);
      assert Fits(rest, repeat, size, outcomes[b..]) && outcomes[b..][0] == outcomes[b];
      var batch := names[offset..offset + n];
      assert rest[..n] == batch && rest[n..] == names[offset + n..] && outcomes[b..][1..] == outcomes[b + 1..];
      TasksOfNonEmpty(batch, repeat);
      var more := BatchResults(TasksOf(batch, repeat), outcomes[b]);
      Extended(results, more, names[..offset], batch, repeat);
      assert names[..offset] + batch == names[..offset + n];
      assert outcomes[..b + 1] == outcomes[..b] + [outcomes[b]];
      results, offset, b := results + more, offset + n, b + 1;
    }
    assert names[..offset] == names && outcomes[..b] == outcomes;
    var setup := CountStatus(results, SETUP_FAILED);
    var skipped := CountStatus(results, SKIP);
    var blocked := CountStatus(results, BLOCKED);
    code := if setup > 0 || skipped > 0 then 2 else if blocked > 0 then 1 else 0;
  }

  lemma Extended(results: seq<Result>, more: seq<Result>, done: seq<string>, batch: seq<string>, repeat: nat)
    requires TasksIn(results) == TasksOf(done, repeat) && TasksIn(more) == TasksOf(batch, repeat)
    requires NoBad(results) ==> AllPass(results)
    requires NoBad(more) ==> AllPass(more)
    ensures TasksIn(results + more) == TasksOf(done + batch, repeat)
    ensures NoBad(results + more) ==> AllPass(results + more)
    ensures forall st :: Has(results, st) || Has(more, st) ==> Has(results + more, st)
  {
    TasksOfConcat(done, batch, repeat);
    assert TasksIn(results + more) == TasksIn(results) + TasksIn(more);
    var all := results + more;
    if NoBad(all) {
      assert forall i | 0 <= i < |results| :: results[i] == all[i];
      assert forall i | 0 <= i < |more| :: more[i] == all[|results| + i];
      assert NoBad(results) && NoBad(more);
    }
    forall st | Has(results, st) || Has(more, st)
      ensures Has(all, st)
    {
      if Has(results, st) {
        var i :| 0 <= i < |results| && results[i].status == st;
        assert all[i].status == st;
      } else {
        var i :| 0 <= i < |more| && more[i].status == st;
        assert all[|results| + i].status == st;
      }
    }
  }
}
