/**
 The deadlock trace: a ring of sequence-stamped records written concurrently by every
 thread of a process and read, at an arbitrary frozen moment, by the collector.

 A writer takes a sequence number, spins on the lock of its slot, gives up if a newer
 generation is already there, invalidates the slot, stores the fields one by one and
 publishes the sequence number last.  One step is one of those actions of one thread.
 */
module TraceRing {

  datatype Slot<P> = Slot(committed: nat, payload: P, locked: bool)

  datatype Pc<P> =
    | Idle
    | Spin(q: nat, p: P)
    | Check(q: nat, p: P)
    | Invalidate(q: nat, p: P)
    | Store(q: nat, p: P)
    | Commit(q: nat, p: P)
    | Unlock(q: nat)

  /**
   `intended[q - 1]` is what the q-th record was asked to hold and `done` the numbers whose
   publishing store has happened; both are history and no step reads them.
   */
  datatype State<P> = State(
    next: nat, slots: seq<Slot<P>>, threads: seq<Pc<P>>, intended: seq<P>, done: set<nat>)

  datatype Step<P> =
    | Begin(t: nat, p: P)
    | Act(t: nat)
    | Scribble(t: nat, junk: P)

  /** The slot of sequence number q >= 1 in a ring of that many slots. */
  function SlotOf(q: nat, capacity: nat): (k: nat)
    requires q > 0 && capacity > 0
    ensures k < capacity
  {
    (q - 1) % capacity
  }

  ghost predicate Initial<P>(s: State<P>) {
    && s.next == 0 && s.intended == [] && s.done == {} && |s.slots| > 0
    && (forall k | 0 <= k < |s.slots| :: s.slots[k].committed == 0 && !s.slots[k].locked)
    && (forall t | 0 <= t < |s.threads| :: s.threads[t].Idle?)
  }

  ghost predicate Enabled<P>(s: State<P>, step: Step<P>) {
    match step
    case Begin(t, _) => t < |s.threads| && s.threads[t].Idle?
    case Act(t) => t < |s.threads| && !s.threads[t].Idle? && s.threads[t].q > 0 && |s.slots| > 0
    case Scribble(t, _) => t < |s.threads| && s.threads[t].Store? && s.threads[t].q > 0 && |s.slots| > 0
  }

  function Put<P>(s: State<P>, t: nat, pc: Pc<P>, slot: Slot<P>, k: nat): (r: State<P>)
    requires t < |s.threads| && k < |s.slots|
    ensures |r.slots| == |s.slots| && |r.threads| == |s.threads|
  {
    s.(threads := s.threads[t := pc], slots := s.slots[k := slot])
  }

  /** One action of `vcann_trace_record_enabled`; a half-stored record holds arbitrary `junk`. */
  ghost function Do<P>(s: State<P>, step: Step<P>): (r: State<P>)
    requires Enabled(s, step)
    ensures |r.slots| == |s.slots| && |r.threads| == |s.threads|
  {
    match step
    case Begin(t, p) =>
      s.(next := s.next + 1, intended := s.intended + [p], threads := s.threads[t := Spin(s.next + 1, p)])
    case Act(t) =>
      var pc := s.threads[t];
      var k := SlotOf(pc.q, |s.slots|);
      var slot := s.slots[k];
      (match pc
       case Spin(q, p) => if slot.locked then s else Put(s, t, Check(q, p), slot.(locked := true), k)
       case Check(q, p) => Put(s, t, if slot.committed > q then Unlock(q) else Invalidate(q, p), slot, k)
       case Invalidate(q, p) => Put(s, t, Store(q, p), slot.(committed := 0), k)
       case Store(q, p) => Put(s, t, Commit(q, p), slot.(payload := p), k)
       case Commit(q, p) => Put(s, t, Unlock(q), slot.(committed := q), k).(done := s.done + {q})
       case Unlock(q) => Put(s, t, Idle, slot.(locked := false), k)
       case Idle => s)
    case Scribble(t, junk) =>
      var k := SlotOf(s.threads[t].q, |s.slots|);
      Put(s, t, s.threads[t], s.slots[k].(payload := junk), k)
  }

  ghost predicate Reaches<P>(s: State<P>, steps: seq<Step<P>>, s': State<P>)
    decreases |steps|
  {
    if steps == [] then s' == s
    else Enabled(s, steps[0]) && Reaches(Do(s, steps[0]), steps[1..], s')
  }

  // ---------------------------------------------------------------- the reader

  /** The first sequence number the collector looks at. */
  function FirstSequence(next: nat, limit: nat, capacity: nat): (q: nat)
    ensures 1 <= q
    ensures q <= next + 1
  {
    var window := if limit < capacity then limit else capacity;
    if next < window then 1 else next - window + 1
  }

  /** The records from sequence number q on whose slot still carries their own number. */
  function DecodeFrom<P>(slots: seq<Slot<P>>, q: nat, next: nat): seq<(nat, P)>
    requires q > 0 && |slots| > 0
    decreases next + 1 - q
  {
    if q > next then []
    else
      var slot := slots[SlotOf(q, |slots|)];
      (if slot.committed == q then [(q, slot.payload)] else []) + DecodeFrom(slots, q + 1, next)
  }

  lemma {:induction false} DecodeSnoc<P>(slots: seq<Slot<P>>, q: nat, next: nat)
    requires 0 < q <= next + 1 && |slots| > 0
    ensures DecodeFrom(slots, q, next + 1) == DecodeFrom(slots, q, next) +
            (var slot := slots[SlotOf(next + 1, |slots|)];
             if slot.committed == next + 1 then [(next + 1, slot.payload)] else [])
    decreases next + 1 - q
  {
    if q <= next {
      DecodeSnoc(slots, q + 1, next);
    } else {
      assert DecodeFrom(slots, q + 1, next + 1) == [];
    }
  }

  /** The collector's loop over the last min(limit, capacity) numbers. */
  method Decode<P>(slots: seq<Slot<P>>, next: nat, limit: nat) returns (records: seq<(nat, P)>)
    requires |slots| > 0
    ensures records == DecodeFrom(slots, FirstSequence(next, limit, |slots|), next)
  {
    var first := FirstSequence(next, limit, |slots|);
    records := [];
    var sequence := first;
    while sequence < next + 1
      invariant first <= sequence <= next + 1
      invariant records == DecodeFrom(slots, first, sequence - 1)
    {
      DecodeSnoc(slots, first, sequence - 1);
      var slot := slots[SlotOf(sequence, |slots|)];
      if slot.committed == sequence {
        records := records + [(sequence, slot.payload)];
      }
      sequence := sequence + 1;
    }
  }

  // ---------------------------------------------------------------- invariant

  predicate Holds<P>(pc: Pc<P>) { pc.Check? || pc.Invalidate? || pc.Store? || pc.Commit? || pc.Unlock? }

  /** The slot's number is withdrawn while its writer stores the fields. */
  predicate Writes<P>(pc: Pc<P>) { pc.Store? || pc.Commit? }

  ghost predicate ThreadInv<P>(s: State<P>, t: nat)
    requires t < |s.threads| && |s.slots| > 0
  {
    var pc := s.threads[t];
    pc.Idle? ||
    (&& 0 < pc.q <= s.next
     && (!pc.Unlock? ==> pc.q !in s.done && pc.q <= |s.intended| && pc.p == s.intended[pc.q - 1])
     && (Holds(pc) ==> s.slots[SlotOf(pc.q, |s.slots|)].locked)
     && (pc.Invalidate? ==> s.slots[SlotOf(pc.q, |s.slots|)].committed <= pc.q)
     && (Writes(pc) ==> s.slots[SlotOf(pc.q, |s.slots|)].committed == 0)
     && (pc.Commit? ==> s.slots[SlotOf(pc.q, |s.slots|)].payload == pc.p))
  }

  /** Two threads never share a number, nor hold the lock of the same slot. */
  ghost predicate PairInv<P>(s: State<P>)
    requires |s.slots| > 0
  {
    forall t, u | 0 <= t < u < |s.threads| && !s.threads[t].Idle? && !s.threads[u].Idle? ::
      && s.threads[t].q > 0 && s.threads[u].q > 0
      && s.threads[t].q != s.threads[u].q
      && (Holds(s.threads[t]) && Holds(s.threads[u]) ==>
            SlotOf(s.threads[t].q, |s.slots|) != SlotOf(s.threads[u].q, |s.slots|))
  }

  ghost predicate SlotInv<P>(s: State<P>, k: nat)
    requires k < |s.slots|
  {
    var c := s.slots[k].committed;
    c == 0 || (c in s.done && 0 < c <= |s.intended| && SlotOf(c, |s.slots|) == k && s.slots[k].payload == s.intended[c - 1])
  }

  /** A published record is still in its slot, or a newer one is, or a newer one is being written. */
  ghost predicate DoneInv<P>(s: State<P>, q: nat)
    requires |s.slots| > 0
  {
    && 0 < q <= s.next
    && (q <= s.slots[SlotOf(q, |s.slots|)].committed ||
        exists t :: 0 <= t < |s.threads| && Newer(s, t, q))
  }

  ghost predicate Newer<P>(s: State<P>, t: nat, q: nat)
    requires t < |s.threads| && |s.slots| > 0 && q > 0
  {
    var pc := s.threads[t];
    Writes(pc) && pc.q > q && SlotOf(pc.q, |s.slots|) == SlotOf(q, |s.slots|)
  }

  ghost predicate Inv<P>(s: State<P>) {
    && |s.slots| > 0
    && |s.intended| == s.next
    && (forall t | 0 <= t < |s.threads| :: ThreadInv(s, t))
    && PairInv(s)
    && (forall k | 0 <= k < |s.slots| :: SlotInv(s, k))
    && (forall q | q in s.done :: DoneInv(s, q))
  }

  // ---------------------------------------------------------------- preservation

  lemma BeginKeeps<P>(s: State<P>, t: nat, p: P)
    requires Inv(s) && t < |s.threads| && s.threads[t].Idle?
    ensures Inv(Do(s, Begin(t, p)))
  {
    var s' := Do(s, Begin(t, p));
    forall q | q in s.done
      ensures q <= s.next
    {
      assert DoneInv(s, q);
    }
    forall u | 0 <= u < |s.threads|
      ensures ThreadInv(s', u)
      ensures u != t && !s.threads[u].Idle? ==> 0 < s.threads[u].q <= s.next
    {
      assert ThreadInv(s, u);
    }
    forall q | q in s'.done
      ensures DoneInv(s', q)
    {
      assert DoneInv(s, q);
      if q > s.slots[SlotOf(q, |s.slots|)].committed {
        var u :| 0 <= u < |s.threads| && Newer(s, u, q);
        assert Newer(s', u, q);
      }
    }
    forall k | 0 <= k < |s.slots|
      ensures SlotInv(s', k)
    {
      assert SlotInv(s, k);
    }
  }

  /** A published record below the writer's number survives as soon as the slot is withdrawn. */
  lemma ActKeepsDone<P>(s: State<P>, t: nat, q: nat)
    requires Inv(s) && Enabled(s, Act(t)) && q in s.done
    ensures DoneInv(Do(s, Act(t)), q)
  {
    var s' := Do(s, Act(t));
    var pc := s.threads[t];
    var k := SlotOf(pc.q, |s.slots|);
    assert ThreadInv(s, t) && DoneInv(s, q);
    if q <= s.slots[SlotOf(q, |s.slots|)].committed {
      if pc.Invalidate? && SlotOf(q, |s.slots|) == k {
        assert Newer(s', t, q);
      }
    } else {
      var u :| 0 <= u < |s.threads| && Newer(s, u, q);
      if u != t {
        assert Newer(s', u, q);
        assert ThreadInv(s, u);
      } else if !pc.Commit? {
        assert Newer(s', t, q);
      }
    }
  }

  lemma ActKeepsThreads<P>(s: State<P>, t: nat)
    requires Inv(s) && Enabled(s, Act(t))
    ensures forall u | 0 <= u < |s.threads| :: ThreadInv(Do(s, Act(t)), u)
    ensures PairInv(Do(s, Act(t)))
  {
    var s' := Do(s, Act(t));
    assert ThreadInv(s, t);
    forall u | 0 <= u < |s.threads|
      ensures ThreadInv(s', u)
      ensures u != t && !s.threads[u].Idle? ==> s.threads[u].q > 0
      ensures u != t && Holds(s.threads[u]) && Holds(s'.threads[t]) ==>
                SlotOf(s.threads[u].q, |s.slots|) != SlotOf(s.threads[t].q, |s.slots|)
    {
      assert ThreadInv(s, u);
    }
  }

  lemma ActKeeps<P>(s: State<P>, t: nat)
    requires Inv(s) && Enabled(s, Act(t))
    ensures Inv(Do(s, Act(t)))
  {
    var s' := Do(s, Act(t));
    assert ThreadInv(s, t);
    ActKeepsThreads(s, t);
    forall k | 0 <= k < |s.slots|
      ensures SlotInv(s', k)
    {
      assert SlotInv(s, k);
    }
    forall q | q in s'.done
      ensures DoneInv(s', q)
    {
      if q in s.done { ActKeepsDone(s, t, q); }
    }
  }

  lemma ScribbleKeeps<P>(s: State<P>, t: nat, junk: P)
    requires Inv(s) && Enabled(s, Scribble(t, junk))
    ensures Inv(Do(s, Scribble(t, junk)))
  {
    var s' := Do(s, Scribble(t, junk));
    assert ThreadInv(s, t);
    assert s'.threads == s.threads;
    forall u | 0 <= u < |s.threads|
      ensures ThreadInv(s', u)
    {
      assert ThreadInv(s, u);
    }
    forall k | 0 <= k < |s.slots|
      ensures SlotInv(s', k)
    {
      assert SlotInv(s, k);
    }
    forall q | q in s'.done
      ensures DoneInv(s', q)
    {
      assert DoneInv(s, q);
      if q > s.slots[SlotOf(q, |s.slots|)].committed {
        var u :| 0 <= u < |s.threads| && Newer(s, u, q);
        assert Newer(s', u, q);
      }
    }
  }

  lemma {:induction false} RunKeeps<P>(s: State<P>, steps: seq<Step<P>>, s': State<P>)
    requires Inv(s) && Reaches(s, steps, s')
    ensures Inv(s') && |s'.slots| == |s.slots|
    decreases |steps|
  {
    hide Inv, Do;
    if steps != [] {
      match steps[0] {
        case Begin(t, p) => BeginKeeps(s, t, p);
        case Act(t) => ActKeeps(s, t);
        case Scribble(t, junk) => ScribbleKeeps(s, t, junk);
      }
      RunKeeps(Do(s, steps[0]), steps[1..], s');
    }
  }

  // ---------------------------------------------------------------- exactness

  lemma MultipleGap(c: nat, z: int)
    requires c > 0 && c * z > 0
    ensures c * z >= c
  {
    assert z <= 0 ==> c * z <= 0;
    assert c * z == c + c * (z - 1);
  }

  lemma QuotientForm(n: nat, c: nat)
    requires c > 0
    ensures n == c * (n / c) + n % c
  {
  }

  lemma SameSlotApart(a: nat, b: nat, capacity: nat)
    requires 0 < a < b && capacity > 0 && SlotOf(a, capacity) == SlotOf(b, capacity)
    ensures b >= a + capacity
  {
    var x, y := (a - 1) / capacity, (b - 1) / capacity;
    QuotientForm(a - 1, capacity);
    QuotientForm(b - 1, capacity);
    calc {
      b - a;
      capacity * y - capacity * x;
      capacity * (y - x);
    }
    MultipleGap(capacity, y - x);
  }

  /** Within one ring length of the end, a slot carries a number exactly if that number was published. */
  lemma WindowExact<P>(s: State<P>, q: nat)
    requires Inv(s) && 0 < q <= s.next && s.next < q + |s.slots|
    ensures s.slots[SlotOf(q, |s.slots|)].committed == q <==> q in s.done
    ensures q in s.done ==> s.slots[SlotOf(q, |s.slots|)].payload == s.intended[q - 1]
  {
    var k := SlotOf(q, |s.slots|);
    assert SlotInv(s, k);
    var c := s.slots[k].committed;
    if q in s.done {
      assert DoneInv(s, q);
      if q > c {
        var t :| 0 <= t < |s.threads| && Newer(s, t, q);
        assert ThreadInv(s, t);
        SameSlotApart(q, s.threads[t].q, |s.slots|);
      } else if q < c {
        SameSlotApart(q, c, |s.slots|);
      }
    }
  }

  /** What the collector ought to report: the published numbers from q on, with what they were given. */
  ghost function Published<P>(s: State<P>, q: nat): seq<(nat, P)>
    requires 0 < q && |s.intended| == s.next
    decreases s.next + 1 - q
  {
    if q > s.next then []
    else (if q in s.done then [(q, s.intended[q - 1])] else []) + Published(s, q + 1)
  }

  lemma {:induction false} DecodeIsPublished<P>(s: State<P>, q: nat)
    requires Inv(s) && 0 < q && s.next < q + |s.slots|
    ensures DecodeFrom(s.slots, q, s.next) == Published(s, q)
    decreases s.next + 1 - q
  {
    if q <= s.next {
      WindowExact(s, q);
      DecodeIsPublished(s, q + 1);
    }
  }

  /**
   Whenever the process is frozen, the collector reports exactly the published records of the
   last min(limit, capacity) sequence numbers, each with the contents its writer was given.
   */
  lemma DecodeExact<P>(s: State<P>, steps: seq<Step<P>>, s': State<P>, limit: nat)
    requires Initial(s) && Reaches(s, steps, s')
    ensures |s'.slots| == |s.slots| && |s'.intended| == s'.next
    ensures var first := FirstSequence(s'.next, limit, |s'.slots|);
            DecodeFrom(s'.slots, first, s'.next) == Published(s', first)
  {
    assert Inv(s);
    RunKeeps(s, steps, s');
    DecodeIsPublished(s', FirstSequence(s'.next, limit, |s'.slots|));
  }

  /** Reported numbers are strictly increasing, within the window, and a number is reported iff published. */
  lemma {:induction false} PublishedOrdered<P>(s: State<P>, q: nat)
    requires 0 < q && |s.intended| == s.next
    ensures forall a, b | 0 <= a < b < |Published(s, q)| :: Published(s, q)[a].0 < Published(s, q)[b].0
    ensures forall a | 0 <= a < |Published(s, q)| ::
              var r := Published(s, q)[a]; q <= r.0 <= s.next && r.0 in s.done && r.1 == s.intended[r.0 - 1]
    ensures forall n | q <= n <= s.next && n in s.done :: (n, s.intended[n - 1]) in Published(s, q)
    decreases s.next + 1 - q
  {
    if q <= s.next { PublishedOrdered(s, q + 1); }
  }
}
