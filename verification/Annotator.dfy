/**
 Labelling trace records with the model layer and phase they belong to.

 The labeller walks over the records once, keeping a small state per stream in a map, and
 writes its labels into the records.  It is proved to agree with a closed form in which a
 record's labels depend only on how many collectives its stream has launched since the last
 completed device synchronisation.
 */
module Annotator {
  import opened Basics

  datatype Kind = DEVICE_SYNC_END | KernelLaunch | OtherKind

  datatype Phase =
    | ATTENTION_TP_ALLREDUCE
    | MLP_TP_ALLREDUCE
    | ATTENTION
    | ATTENTION_QKV
    | ATTENTION_O
    | MLP_UP_GATE
    | MLP_DOWN
    | ATTENTION_ROPE_CACHE
    | MLP_ACTIVATION
    | NORM

  datatype Basis = TraceStart | AfterDeviceSync

  /** `kernel` is the normalised name, empty if the record names none; the last four fields are the labels. */
  datatype Record = Record(
    kind: Kind, stream: string, kernel: string,
    kernelName: Option<string>, layer: Option<nat>, basis: Option<Basis>, phase: Option<Phase>)

  datatype Class = Collective | Attention | Matmul | Rope | Silu | Norm | Unclassified

  predicate Contains(s: string, part: string) {
    exists i :: 0 <= i <= |s| && StartsWith(s[i..], part)
  }

  predicate StartsWith(s: string, part: string) { |part| <= |s| && s[..|part|] == part }

  function Classify(kernel: string): Class {
    if Contains(kernel, "allreduce") then Collective
    else if Contains(kernel, "flash_attention") || StartsWith(kernel, "attention_") then Attention
    else if Contains(kernel, "matmul") then Matmul
    else if Contains(kernel, "rope") then Rope
    else if Contains(kernel, "silu") then Silu
    else if Contains(kernel, "rmsnorm") || StartsWith(kernel, "norm_") then Norm
    else Unclassified
  }

  predicate Named(r: Record) { r.kind.KernelLaunch? && r.kernel != "" }

  predicate Launches(r: Record, stream: string, class_: Class) {
    Named(r) && r.stream == stream && Classify(r.kernel) == class_
  }

  // ---------------------------------------------------------------- the closed form

  /** Where the records since the last completed device synchronisation begin. */
  function Since(rs: seq<Record>, n: nat): (m: nat)
    requires n <= |rs|
    ensures m <= n
    ensures forall i | m <= i < n :: !rs[i].kind.DEVICE_SYNC_END?
    ensures m > 0 ==> rs[m - 1].kind.DEVICE_SYNC_END?
  {
    if n == 0 then 0 else if rs[n - 1].kind.DEVICE_SYNC_END? then n else Since(rs, n - 1)
  }

  /** The collectives launched on the stream from lo on, before n. */
  function Collectives(rs: seq<Record>, stream: string, lo: nat, n: nat): nat
    requires lo <= n <= |rs|
  {
    if n == lo then 0 else Collectives(rs, stream, lo, n - 1) + if Launches(rs[n - 1], stream, Collective) then 1 else 0
  }

  /** Whether a matrix product has been launched on the stream since its last collective. */
  predicate MatmulSince(rs: seq<Record>, stream: string, lo: nat, n: nat)
    requires lo <= n <= |rs|
  {
    exists i :: lo <= i < n && Launches(rs[i], stream, Matmul)
                && forall j | i < j < n :: !Launches(rs[j], stream, Collective)
  }

  function PhaseOf(class_: Class, k: nat, again: bool): Option<Phase> {
    match class_
    case Collective => Some(if k % 2 == 0 then ATTENTION_TP_ALLREDUCE else MLP_TP_ALLREDUCE)
    case Attention => Some(ATTENTION)
    case Matmul => Some(if k % 2 == 0 then (if again then ATTENTION_O else ATTENTION_QKV) else (if again then MLP_DOWN else MLP_UP_GATE))
    case Rope => Some(ATTENTION_ROPE_CACHE)
    case Silu => Some(MLP_ACTIVATION)
    case Norm => Some(NORM)
    case Unclassified => None
  }

  /** A record with its labels, said without any state. */
  function Labelled(rs: seq<Record>, n: nat, layers: nat): Record
    requires n < |rs| && layers > 0
  {
    var r := rs[n];
    if !Named(r) then r
    else
      var lo := Since(rs, n);
      var k := Collectives(rs, r.stream, lo, n);
      var phase := PhaseOf(Classify(r.kernel), k, MatmulSince(rs, r.stream, lo, n));
      r.(kernelName := Some(r.kernel), layer := Some(k / 2 % layers),
         basis := Some(if lo == 0 then TraceStart else AfterDeviceSync),
         phase := if phase.Some? then phase else r.phase)
  }

  // ---------------------------------------------------------------- the labeller

  datatype StreamState = StreamState(layer: nat, mlp: bool, attnMatmuls: nat, mlpMatmuls: nat)

  const FRESH := StreamState(0, false, 0, 0)

  function Lookup(states: map<string, StreamState>, stream: string): StreamState {
    if stream in states then states[stream] else FRESH
  }

  /** What a stream's state says about its past. */
  ghost predicate Agrees(st: StreamState, rs: seq<Record>, stream: string, n: nat, layers: nat)
    requires n <= |rs| && layers > 0
  {
    var lo := Since(rs, n);
    var k := Collectives(rs, stream, lo, n);
    && st.layer == k / 2 % layers && st.mlp == (k % 2 == 1)
    && ((if st.mlp then st.mlpMatmuls else st.attnMatmuls) > 0 <==> MatmulSince(rs, stream, lo, n))
    && (!st.mlp ==> st.mlpMatmuls == 0)
  }

  function NextState(st: StreamState, class_: Class, layers: nat): StreamState
    requires layers > 0
  {
    match class_
    case Collective => if st.mlp then StreamState((st.layer + 1) % layers, false, 0, 0) else st.(mlp := true)
    case Matmul => if st.mlp then st.(mlpMatmuls := st.mlpMatmuls + 1) else st.(attnMatmuls := st.attnMatmuls + 1)
    case _ => st
  }

  function PhaseFrom(st: StreamState, class_: Class): Option<Phase> {
    PhaseOf(class_, if st.mlp then 1 else 0, (if st.mlp then st.mlpMatmuls else st.attnMatmuls) > 0)
  }

  lemma NextLayer(k: nat, layers: nat)
    requires layers > 0
    ensures (k % layers + 1) % layers == (k + 1) % layers
  {
    var q, m := k / layers, k % layers;
    assert k == q * layers + m;
    if m + 1 == layers {
      assert k + 1 == (q + 1) * layers + 0;
      DivMod(q + 1, layers, 0);
      DivMod(1, layers, 0);
    } else {
      DivMod(q, layers, m + 1);
      DivMod(0, layers, m + 1);
    }
  }

  /** A launch on the stream takes its state to the next one. */
  lemma SameStream(st: StreamState, rs: seq<Record>, stream: string, n: nat, layers: nat)
    requires n < |rs| && layers > 0 && Agrees(st, rs, stream, n, layers)
    requires Named(rs[n]) && rs[n].stream == stream
    ensures Agrees(NextState(st, Classify(rs[n].kernel), layers), rs, stream, n + 1, layers)
  {
    hide Classify;
    var lo := Since(rs, n);
    var k := Collectives(rs, stream, lo, n);
    assert Since(rs, n + 1) == lo;
    match Classify(rs[n].kernel) {
      case Collective =>
        NextLayer(k / 2, layers);
        assert !MatmulSince(rs, stream, lo, n + 1);
      case Matmul =>
        assert MatmulSince(rs, stream, lo, n + 1);
      case _ =>
        assert MatmulSince(rs, stream, lo, n + 1) <==> MatmulSince(rs, stream, lo, n);
    }
  }

  /** Any record but a device synchronisation leaves the states of other streams alone. */
  lemma OtherStream(st: StreamState, rs: seq<Record>, stream: string, n: nat, layers: nat)
    requires n < |rs| && layers > 0 && Agrees(st, rs, stream, n, layers)
    requires !rs[n].kind.DEVICE_SYNC_END? && (!Named(rs[n]) || rs[n].stream != stream)
    ensures Agrees(st, rs, stream, n + 1, layers)
  {
    hide Classify;
    assert Since(rs, n + 1) == Since(rs, n);
    assert MatmulSince(rs, stream, Since(rs, n), n + 1) <==> MatmulSince(rs, stream, Since(rs, n), n);
  }

  lemma FreshStream(rs: seq<Record>, stream: string, n: nat, layers: nat)
    requires n <= |rs| && layers > 0 && (n == 0 || rs[n - 1].kind.DEVICE_SYNC_END?)
    ensures Agrees(FRESH, rs, stream, n, layers)
  {
  }

  /** All streams at once, including those not seen yet. */
  ghost predicate AllAgree(states: map<string, StreamState>, rs: seq<Record>, n: nat, layers: nat)
    requires n <= |rs| && layers > 0
  {
    forall stream: string :: Agrees(Lookup(states, stream), rs, stream, n, layers)
  }

  lemma AllFresh(rs: seq<Record>, n: nat, layers: nat)
    requires n <= |rs| && layers > 0 && (n == 0 || rs[n - 1].kind.DEVICE_SYNC_END?)
    ensures AllAgree(map[], rs, n, layers)
  {
    forall stream: string
      ensures Agrees(Lookup(map[], stream), rs, stream, n, layers)
    {
      FreshStream(rs, stream, n, layers);
    }
  }

  lemma AllSkip(states: map<string, StreamState>, rs: seq<Record>, n: nat, layers: nat)
    requires n < |rs| && layers > 0 && AllAgree(states, rs, n, layers)
    requires !rs[n].kind.DEVICE_SYNC_END? && !Named(rs[n])
    ensures AllAgree(states, rs, n + 1, layers)
  {
    hide Agrees;
    forall stream: string
      ensures Agrees(Lookup(states, stream), rs, stream, n + 1, layers)
    {
      OtherStream(Lookup(states, stream), rs, stream, n, layers);
    }
  }

  lemma AllNext(states: map<string, StreamState>, rs: seq<Record>, n: nat, layers: nat)
    requires n < |rs| && layers > 0 && AllAgree(states, rs, n, layers) && Named(rs[n])
    ensures var s := rs[n].stream;
            AllAgree(states[s := NextState(Lookup(states, s), Classify(rs[n].kernel), layers)], rs, n + 1, layers)
  {
    hide Agrees, Classify, NextState;
    var s := rs[n].stream;
    var st := NextState(Lookup(states, s), Classify(rs[n].kernel), layers);
    var states' := states[s := st];
    forall stream: string
      ensures Agrees(Lookup(states', stream), rs, stream, n + 1, layers)
    {
      if stream == s {
        SameStream(Lookup(states, s), rs, s, n, layers);
      } else {
        OtherStream(Lookup(states, stream), rs, stream, n, layers);
      }
    }
  }

  /** The labels written from a stream's state are those of the closed form. */
  lemma LabelsAgree(st: StreamState, rs: seq<Record>, n: nat, layers: nat)
    requires n < |rs| && layers > 0 && Named(rs[n]) && Agrees(st, rs, rs[n].stream, n, layers)
    ensures var r := rs[n];
            var phase := PhaseFrom(st, Classify(r.kernel));
            Labelled(rs, n, layers) ==
            r.(kernelName := Some(r.kernel), layer := Some(st.layer),
               basis := Some(if Since(rs, n) == 0 then TraceStart else AfterDeviceSync),
               phase := if phase.Some? then phase else r.phase)
  {
    hide Classify, Collectives, MatmulSince;
  }

  /** The labeller.  Every record ends up as the closed form says, and nothing else is touched. */
  method Annotate(records: array<Record>, layers: nat)
    requires layers > 0
    modifies records
    ensures records[..] == Annotated(old(records[..]), layers)
  {
    hide Labelled, Classify, AllAgree, Agrees, NextState, PhaseFrom;
    ghost var rs := records[..];
    var states: map<string, StreamState> := map[];
    var basis := TraceStart;
    AllFresh(rs, 0, layers);
    var n := 0;
    while n < records.Length
      invariant 0 <= n <= records.Length == |rs|
      invariant forall i | 0 <= i < n :: records[i] == Labelled(rs, i, layers)
      invariant forall i | n <= i < |rs| :: records[i] == rs[i]
      invariant basis == if Since(rs, n) == 0 then TraceStart else AfterDeviceSync
      invariant AllAgree(states, rs, n, layers)
    {
      var r := records[n];
      assert !Named(r) ==> Labelled(rs, n, layers) == r by { Unnamed(rs, n, layers); }
      if r.kind.DEVICE_SYNC_END? {
        states := map[];
        basis := AfterDeviceSync;
        AllFresh(rs, n + 1, layers);
      } else if !Named(r) {
        AllSkip(states, rs, n, layers);
      } else {
        var class_ := Classify(r.kernel);
        var st := Lookup(states, r.stream);
        assert Agrees(st, rs, r.stream, n, layers) by { Instance(states, rs, r.stream, n, layers); }
        LabelsAgree(st, rs, n, layers);
        AllNext(states, rs, n, layers);
        var phase := PhaseFrom(st, class_);
        records[n] := r.(kernelName := Some(r.kernel), layer := Some(st.layer), basis := Some(basis),
                         phase := if phase.Some? then phase else r.phase);
        states := states[r.stream := NextState(st, class_, layers)];
      }
      n := n + 1;
    }
  }

  lemma Unnamed(rs: seq<Record>, n: nat, layers: nat)
    requires n < |rs| && layers > 0
    ensures !Named(rs[n]) ==> Labelled(rs, n, layers) == rs[n]
  {
  }

  lemma Instance(states: map<string, StreamState>, rs: seq<Record>, stream: string, n: nat, layers: nat)
    requires n <= |rs| && layers > 0 && AllAgree(states, rs, n, layers)
    ensures Agrees(Lookup(states, stream), rs, stream, n, layers)
  {
  }

  // ---------------------------------------------------------------- what follows from the closed form

  /** The collectives counted, as a set of positions. */
  lemma {:induction false} CollectivesCount(rs: seq<Record>, stream: string, lo: nat, n: nat)
    requires lo <= n <= |rs|
    ensures Collectives(rs, stream, lo, n) == |CollectivesAt(rs, stream, lo, n)|
    decreases n
  {
    hide Launches;
    if n == lo {
      assert CollectivesAt(rs, stream, lo, n) == {};
    } else {
      CollectivesCount(rs, stream, lo, n - 1);
      var before := CollectivesAt(rs, stream, lo, n - 1);
      assert CollectivesAt(rs, stream, lo, n) == if Launches(rs[n - 1], stream, Collective) then before + {n - 1} else before;
    }
  }

  ghost function CollectivesAt(rs: seq<Record>, stream: string, lo: nat, n: nat): set<int>
    requires lo <= n <= |rs|
  {
    set i | lo <= i < n && Launches(rs[i], stream, Collective)
  }

  /** The same for this stream, as far as anything but labels goes. */
  ghost predicate SameFor(r: Record, r': Record, stream: string) {
    || (r.kind == r'.kind && r.stream == r'.stream && r.kernel == r'.kernel)
    || (!r.kind.DEVICE_SYNC_END? && !r'.kind.DEVICE_SYNC_END? && r.stream != stream && r'.stream != stream)
  }

  lemma {:induction false} SamePast(rs: seq<Record>, rs': seq<Record>, stream: string, n: nat)
    requires n <= |rs| == |rs'| && forall i | 0 <= i < |rs| :: SameFor(rs[i], rs'[i], stream)
    ensures Since(rs, n) == Since(rs', n)
    ensures forall lo | 0 <= lo <= n :: Collectives(rs, stream, lo, n) == Collectives(rs', stream, lo, n)
    ensures forall lo | 0 <= lo <= n :: MatmulSince(rs, stream, lo, n) == MatmulSince(rs', stream, lo, n)
    decreases n
  {
    hide Classify;
    assert forall i, class_ | 0 <= i < |rs| :: Launches(rs[i], stream, class_) == Launches(rs'[i], stream, class_);
    if n > 0 {
      assert SameFor(rs[n - 1], rs'[n - 1], stream);
      SamePast(rs, rs', stream, n - 1);
    }
  }

  /** Streams never influence each other: what happens elsewhere does not change a record's labels. */
  lemma StreamsIndependent(rs: seq<Record>, rs': seq<Record>, n: nat, layers: nat)
    requires n < |rs| == |rs'| && layers > 0 && rs[n] == rs'[n]
    requires forall i | 0 <= i < |rs| :: SameFor(rs[i], rs'[i], rs[n].stream)
    ensures Labelled(rs, n, layers) == Labelled(rs', n, layers)
  {
    hide Classify;
    SamePast(rs, rs', rs[n].stream, n);
  }

  function Annotated(rs: seq<Record>, layers: nat): (out: seq<Record>)
    requires layers > 0
    ensures |out| == |rs|
  {
    seq(|rs|, n requires 0 <= n < |rs| => Labelled(rs, n, layers))
  }

  /** Running the labeller again changes nothing. */
  lemma Idempotent(rs: seq<Record>, layers: nat)
    requires layers > 0
    ensures Annotated(Annotated(rs, layers), layers) == Annotated(rs, layers)
  {
    var out := Annotated(rs, layers);
    forall n | 0 <= n < |rs|
      ensures Labelled(out, n, layers) == out[n]
    {
      hide Classify, Collectives, MatmulSince, Since, PhaseOf;
      assert forall i | 0 <= i < |rs| :: out[i] == Labelled(rs, i, layers);
      assert forall i | 0 <= i < |rs| :: SameFor(rs[i], out[i], rs[n].stream);
      SamePast(rs, out, rs[n].stream, n);
    }
  }
}
