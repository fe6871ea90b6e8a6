/**
 Which kernel a blocked process is waiting for.

 A trace shows some of the launched kernels and some of the completed synchronisations, in
 the order of their sequence numbers.  While a synchronisation is active, the analyser lists
 the kernels launched before it that no earlier synchronisation accounts for.
 */
module Window {
  import opened Basics

  datatype Kind = SCHED_SYNC_END | DEVICE_SYNC_END | OtherKind

  /** `kernel` is the name the labeller gave, empty for a record that names no kernel. */
  datatype Record = Record(sequence: int, kind: Kind, stream: string, kernel: string)

  datatype Probe = Probe(active: bool, stream: string, begin: int)

  /** Decoded records carry positive, strictly increasing sequence numbers. */
  ghost predicate Sorted(rs: seq<Record>) {
    && (forall i | 0 <= i < |rs| :: rs[i].sequence > 0)
    && (forall i, j | 0 <= i < j < |rs| :: rs[i].sequence < rs[j].sequence)
  }

  predicate IsBoundary(r: Record, kind: Kind, stream: Option<string>, begin: int) {
    r.kind == kind && (stream.Some? ==> r.stream == stream.value) && r.sequence < begin
  }

  /** The last boundary in the list, 0 if there is none. */
  function Boundary(rs: seq<Record>, kind: Kind, stream: Option<string>, begin: int): int {
    if rs == [] then 0
    else
      var last := rs[|rs| - 1];
      if IsBoundary(last, kind, stream, begin) then last.sequence else Boundary(rs[..|rs| - 1], kind, stream, begin)
  }

  predicate Candidate(r: Record, stream: Option<string>, boundary: int, begin: int) {
    (stream.Some? ==> r.stream == stream.value) && boundary < r.sequence < begin && r.kernel != ""
  }

  function Candidates(rs: seq<Record>, stream: Option<string>, boundary: int, begin: int): seq<Record> {
    if rs == [] then []
    else Candidates(rs[..|rs| - 1], stream, boundary, begin)
         + if Candidate(rs[|rs| - 1], stream, boundary, begin) then [rs[|rs| - 1]] else []
  }

  /** The unresolved window of an active synchronisation: of one stream, or of the whole device. */
  function WindowOf(rs: seq<Record>, kind: Kind, stream: Option<string>, begin: int): seq<Record> {
    Candidates(rs, stream, Boundary(rs, kind, stream, begin), begin)
  }

  // ---------------------------------------------------------------- what the window means

  /** A completed synchronisation on the stream comes after the launch. */
  ghost predicate KnownComplete(r: Record, rs: seq<Record>, kind: Kind, stream: Option<string>) {
    exists i :: 0 <= i < |rs| && rs[i].kind == kind && (stream.Some? ==> rs[i].stream == stream.value)
                && r.sequence < rs[i].sequence
  }

  /** ... and before the active synchronisation began. */
  ghost predicate CompleteBefore(r: Record, rs: seq<Record>, kind: Kind, stream: Option<string>, begin: int) {
    exists i :: 0 <= i < |rs| && IsBoundary(rs[i], kind, stream, begin) && r.sequence < rs[i].sequence
  }

  ghost predicate Submitted(r: Record, stream: Option<string>, begin: int) {
    (stream.Some? ==> r.stream == stream.value) && r.sequence < begin && r.kernel != ""
  }

  /** The last boundary is the greatest, and 0 stands for none. */
  lemma {:induction false} BoundaryIsLast(rs: seq<Record>, kind: Kind, stream: Option<string>, begin: int)
    requires Sorted(rs)
    ensures var b := Boundary(rs, kind, stream, begin);
            && (forall i | 0 <= i < |rs| && IsBoundary(rs[i], kind, stream, begin) :: rs[i].sequence <= b)
            && (b == 0 || exists i :: 0 <= i < |rs| && IsBoundary(rs[i], kind, stream, begin) && rs[i].sequence == b)
    decreases |rs|
  {
    if rs != [] {
      var n := |rs| - 1;
      BoundaryIsLast(rs[..n], kind, stream, begin);
      if !IsBoundary(rs[n], kind, stream, begin) {
        var b := Boundary(rs[..n], kind, stream, begin);
        if b != 0 {
          var i :| 0 <= i < n && IsBoundary(rs[..n][i], kind, stream, begin) && rs[..n][i].sequence == b;
          assert rs[i] == rs[..n][i];
        }
        assert forall i | 0 <= i < n :: rs[..n][i] == rs[i];
      }
    }
  }

  /** A launch has been completed by an earlier synchronisation exactly if it is not after the boundary. */
  lemma BoundaryMeans(rs: seq<Record>, kind: Kind, stream: Option<string>, begin: int, k: nat)
    requires Sorted(rs) && k < |rs|
    requires rs[k].kind != kind || rs[k].kernel == "" || (stream.Some? && rs[k].stream != stream.value)
    ensures rs[k].kernel != "" && (stream.Some? ==> rs[k].stream == stream.value) ==>
              (CompleteBefore(rs[k], rs, kind, stream, begin) <==> rs[k].sequence <= Boundary(rs, kind, stream, begin))
  {
    BoundaryIsLast(rs, kind, stream, begin);
    var b := Boundary(rs, kind, stream, begin);
    if rs[k].kernel != "" && (stream.Some? ==> rs[k].stream == stream.value) && rs[k].sequence <= b {
      var i :| 0 <= i < |rs| && IsBoundary(rs[i], kind, stream, begin) && rs[i].sequence == b;
      assert i != k;
      assert rs[k].sequence < rs[i].sequence;
    }
  }

  lemma {:induction false} CandidatesAre(rs: seq<Record>, stream: Option<string>, boundary: int, begin: int, r: Record)
    ensures r in Candidates(rs, stream, boundary, begin) <==> r in rs && Candidate(r, stream, boundary, begin)
    decreases |rs|
  {
    if rs != [] {
      var n := |rs| - 1;
      CandidatesAre(rs[..n], stream, boundary, begin, r);
      assert rs == rs[..n] + [rs[n]];
    }
  }

  /** A synchronisation record names no kernel. */
  ghost predicate SyncsAreNoKernels(rs: seq<Record>) {
    forall i | 0 <= i < |rs| && !rs[i].kind.OtherKind? :: rs[i].kernel == ""
  }

  /**
   The window is exactly the visible named kernels submitted before the active
   synchronisation that no earlier synchronisation has completed.
   */
  lemma WindowExact(rs: seq<Record>, kind: Kind, stream: Option<string>, begin: int, r: Record)
    requires Sorted(rs) && SyncsAreNoKernels(rs) && !kind.OtherKind?
    ensures r in WindowOf(rs, kind, stream, begin) <==>
            r in rs && Submitted(r, stream, begin) && !CompleteBefore(r, rs, kind, stream, begin)
  {
    CandidatesAre(rs, stream, Boundary(rs, kind, stream, begin), begin, r);
    if r in rs {
      var k :| 0 <= k < |rs| && rs[k] == r;
      assert rs[k].kind == kind ==> rs[k].kernel == "";
      BoundaryMeans(rs, kind, stream, begin, k);
      BoundaryIsLast(rs, kind, stream, begin);
    }
  }

  /** A visible named kernel submitted before the active synchronisation and not completed before it. */
  ghost predicate Unresolved(r: Record, rs: seq<Record>, kind: Kind, stream: Option<string>, begin: int) {
    r in rs && Submitted(r, stream, begin) && !CompleteBefore(r, rs, kind, stream, begin)
  }

  /**
   The window holds none that is known complete from all that is visible if and only if no
   visible kernel is unresolved or no completed synchronisation is visible from `begin` on.
   */
  lemma NoneKnownComplete(rs: seq<Record>, kind: Kind, stream: Option<string>, begin: int)
    requires Sorted(rs) && SyncsAreNoKernels(rs) && !kind.OtherKind?
    ensures (forall r | r in WindowOf(rs, kind, stream, begin) :: !KnownComplete(r, rs, kind, stream)) <==>
            ((forall r | r in rs :: !Unresolved(r, rs, kind, stream, begin)) || !LateSync(rs, kind, stream, begin))
  {
    var w := WindowOf(rs, kind, stream, begin);
    forall r | r in w
      ensures r.sequence < begin && (KnownComplete(r, rs, kind, stream) <==> LateSync(rs, kind, stream, begin))
    {
      WindowExact(rs, kind, stream, begin, r);
      if KnownComplete(r, rs, kind, stream) {
        var i :| 0 <= i < |rs| && rs[i].kind == kind && (stream.Some? ==> rs[i].stream == stream.value)
                 && r.sequence < rs[i].sequence;
        assert IsBoundary(rs[i], kind, stream, begin) <==> rs[i].sequence < begin;
      }
    }
    forall r | r in rs
      ensures Unresolved(r, rs, kind, stream, begin) <==> r in w
    {
      WindowExact(rs, kind, stream, begin, r);
    }
    forall r | r in w
      ensures r in rs
    {
      WindowExact(rs, kind, stream, begin, r);
    }
  }

  ghost predicate LateSync(rs: seq<Record>, kind: Kind, stream: Option<string>, begin: int) {
    exists i :: 0 <= i < |rs| && rs[i].kind == kind && (stream.Some? ==> rs[i].stream == stream.value)
                && rs[i].sequence >= begin
  }

  /** It does happen: a synchronisation that has just ended is still shown as active. */
  lemma LateSyncHappens() returns (rs: seq<Record>, r: Record)
    ensures Sorted(rs) && SyncsAreNoKernels(rs)
    ensures r in WindowOf(rs, SCHED_SYNC_END, Some("s"), 2) && KnownComplete(r, rs, SCHED_SYNC_END, Some("s"))
  {
    r := Record(1, OtherKind, "s", "k");
    rs := [r, Record(2, OtherKind, "s", ""), Record(3, SCHED_SYNC_END, "s", "")];
    assert rs[2].kind == SCHED_SYNC_END;
    WindowExact(rs, SCHED_SYNC_END, Some("s"), 2, r);
    assert r in rs by { assert rs[0] == r; }
  }

  lemma {:induction false} CandidatesSorted(rs: seq<Record>, stream: Option<string>, boundary: int, begin: int)
    requires Sorted(rs)
    ensures Sorted(Candidates(rs, stream, boundary, begin))
    decreases |rs|
  {
    if rs != [] {
      var n := |rs| - 1;
      CandidatesSorted(rs[..n], stream, boundary, begin);
      var c := Candidates(rs[..n], stream, boundary, begin);
      forall i | 0 <= i < |c|
        ensures c[i].sequence < rs[n].sequence
      {
        CandidatesAre(rs[..n], stream, boundary, begin, c[i]);
      }
    }
  }

  // ---------------------------------------------------------------- the report

  datatype Item = Shown(r: Record) | Omitted(count: nat)

  function ShowAll(rs: seq<Record>): (items: seq<Item>)
    ensures |items| == |rs|
    ensures forall i | 0 <= i < |rs| :: items[i] == Shown(rs[i])
  {
    seq(|rs|, i requires 0 <= i < |rs| => Shown(rs[i]))
  }

  /** At most 32 entries in full, else the ends with a count of what was left out between them. */
  function Bounded(rs: seq<Record>): seq<Item> {
    if |rs| <= 32 then ShowAll(rs)
    else ShowAll(rs[..16]) + [Omitted(|rs| - 32)] + ShowAll(rs[|rs| - 16..])
  }

  function Accounted(items: seq<Item>): nat {
    if items == [] then 0
    else Accounted(items[..|items| - 1]) + match items[|items| - 1] case Shown(_) => 1 case Omitted(n) => n
  }

  lemma {:induction false} AccountedConcat(a: seq<Item>, b: seq<Item>)
    ensures Accounted(a + b) == Accounted(a) + Accounted(b)
    decreases |b|
  {
    if b == [] {
      assert a + b == a;
    } else {
      var n := |b| - 1;
      AccountedConcat(a, b[..n]);
      assert (a + b)[..|a + b| - 1] == a + b[..n];
    }
  }

  lemma {:induction false} AccountedShown(rs: seq<Record>)
    ensures Accounted(ShowAll(rs)) == |rs|
    decreases |rs|
  {
    if rs != [] {
      var n := |rs| - 1;
      AccountedShown(rs[..n]);
      assert ShowAll(rs)[..n] == ShowAll(rs[..n]);
    }
  }

  /** A shortened listing accounts for every element and never has more than 33 entries. */
  lemma BoundedAccounts(rs: seq<Record>)
    ensures Accounted(Bounded(rs)) == |rs| && |Bounded(rs)| <= 33
  {
    if |rs| <= 32 {
      AccountedShown(rs);
    } else {
      var head, tail := rs[..16], rs[|rs| - 16..];
      var gap := [Omitted(|rs| - 32)];
      AccountedShown(head);
      AccountedShown(tail);
      hide ShowAll;
      AccountedConcat(ShowAll(head), gap);
      AccountedConcat(ShowAll(head) + gap, ShowAll(tail));
      AccountedGap(|rs| - 32);
      hide Accounted;
    }
  }

  lemma AccountedGap(n: nat)
    ensures Accounted([Omitted(n)]) == n
  {
    assert [Omitted(n)][..0] == [];
  }

  /** The ends of a shortened listing are the ends of the window. */
  lemma BoundedEnds(rs: seq<Record>, k: nat)
    requires k < 16 && k < |rs|
    ensures Bounded(rs)[k] == Shown(rs[k])
    ensures Bounded(rs)[|Bounded(rs)| - 1 - k] == Shown(rs[|rs| - 1 - k])
  {
    if |rs| > 32 {
      var head, gap, tail := ShowAll(rs[..16]), [Omitted(|rs| - 32)], ShowAll(rs[|rs| - 16..]);
      assert Bounded(rs) == head + gap + tail;
      hide ShowAll, Bounded;
      var front := head + gap;
      assert front[k] == head[k] && (front + tail)[k] == front[k];
      assert (front + tail)[32 - k] == tail[15 - k];
    }
  }

  /** What is reported: a kernel, the window it stands for and the window's size. */
  datatype Report = NoReport | Report(kernel: Record, count: nat, listing: seq<Item>, scheduler: bool, bounded: bool)

  /** The scheduler's stream first, then the device; either only if its window is not empty. */
  function Blocked(rs: seq<Record>, sched: Probe, host: Probe): Report {
    var w := if sched.active then WindowOf(rs, SCHED_SYNC_END, Some(sched.stream), sched.begin) else [];
    if w != [] then Report(w[0], |w|, Bounded(w), true, Boundary(rs, SCHED_SYNC_END, Some(sched.stream), sched.begin) != 0)
    else
      var v := if host.active then WindowOf(rs, DEVICE_SYNC_END, None, host.begin) else [];
      if v != [] then Report(v[|v| - 1], |v|, Bounded(v), false, Boundary(rs, DEVICE_SYNC_END, None, host.begin) != 0)
      else NoReport
  }

  ghost predicate Earliest(r: Record, rs: seq<Record>, kind: Kind, stream: Option<string>, begin: int) {
    Unresolved(r, rs, kind, stream, begin) && forall q | Unresolved(q, rs, kind, stream, begin) :: r.sequence <= q.sequence
  }

  ghost predicate Latest(r: Record, rs: seq<Record>, kind: Kind, stream: Option<string>, begin: int) {
    Unresolved(r, rs, kind, stream, begin) && forall q | Unresolved(q, rs, kind, stream, begin) :: q.sequence <= r.sequence
  }

  /**
   The kernel reported is unresolved: the earliest on the scheduler's stream, or else the
   latest on the device.  The scheduler's window is passed over only if it is empty.
   */
  lemma BlockedMeans(rs: seq<Record>, sched: Probe, host: Probe)
    requires Sorted(rs) && SyncsAreNoKernels(rs)
    ensures var b := Blocked(rs, sched, host);
            b.Report? ==> Accounted(b.listing) == b.count
    ensures var b := Blocked(rs, sched, host);
            b.Report? && b.scheduler ==> sched.active && Earliest(b.kernel, rs, SCHED_SYNC_END, Some(sched.stream), sched.begin)
    ensures var b := Blocked(rs, sched, host);
            b.Report? && !b.scheduler ==> host.active && Latest(b.kernel, rs, DEVICE_SYNC_END, None, host.begin)
    ensures var b := Blocked(rs, sched, host);
            (b.Report? && b.scheduler) <==> (sched.active && exists r :: Unresolved(r, rs, SCHED_SYNC_END, Some(sched.stream), sched.begin))
    ensures var b := Blocked(rs, sched, host);
            b.NoReport? ==> (host.active ==> forall r :: !Unresolved(r, rs, DEVICE_SYNC_END, None, host.begin))
  {
    var w := WindowOf(rs, SCHED_SYNC_END, Some(sched.stream), sched.begin);
    var v := WindowOf(rs, DEVICE_SYNC_END, None, host.begin);
    WindowIs(rs, SCHED_SYNC_END, Some(sched.stream), sched.begin);
    WindowIs(rs, DEVICE_SYNC_END, None, host.begin);
    BoundedAccounts(w);
    BoundedAccounts(v);
    hide WindowOf, Unresolved, Bounded, Accounted;
    if w != [] { assert w[0] in w; }
    if v != [] { assert v[|v| - 1] in v; }
  }

  lemma WindowIs(rs: seq<Record>, kind: Kind, stream: Option<string>, begin: int)
    requires Sorted(rs) && SyncsAreNoKernels(rs) && !kind.OtherKind?
    ensures var w := WindowOf(rs, kind, stream, begin);
            && (forall r :: r in w <==> Unresolved(r, rs, kind, stream, begin))
            && (forall r | r in w :: w[0].sequence <= r.sequence <= w[|w| - 1].sequence)
  {
    var w := WindowOf(rs, kind, stream, begin);
    CandidatesSorted(rs, stream, Boundary(rs, kind, stream, begin), begin);
    forall r: Record
      ensures r in w <==> Unresolved(r, rs, kind, stream, begin)
    {
      WindowExact(rs, kind, stream, begin, r);
    }
  }
}
