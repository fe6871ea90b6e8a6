/**
 The coordinator's record of worker events in the two-container reproducer, kept in place,
 and the loop that waits until enough of one kind have come in.
 */
module OperationLog {
  import opened Basics
  import opened Phases

  /** A message of a participant: an event whose fields may be missing, or something else. */
  datatype Message = NotEvent | Event(kind: Option<Kind>, model: string, rank: Option<int>)

  datatype Record = Record(kind: Kind, model: string, rank: int)

  /** The record an event from this role leaves behind, if it is acceptable. */
  function Admit(role: string, m: Message): Option<Record> {
    if m.Event? && m.kind.Some? && m.model == role && m.rank.Some?
    then Some(Record(m.kind.value, m.model, m.rank.value))
    else None
  }

  /** An event that neither breaks the format nor reports a failed worker. */
  predicate Fine(role: string, m: Message) {
    Admit(role, m).Some? && !Admit(role, m).value.kind.ERROR?
  }

  predicate Matches(r: Record, kind: Kind, model: Option<string>) {
    r.kind == kind && (model.Some? ==> r.model == model.value)
  }

  function CountOf(records: seq<Record>, kind: Kind, model: Option<string>): nat {
    if records == [] then 0
    else CountOf(records[..|records| - 1], kind, model) + if Matches(records[|records| - 1], kind, model) then 1 else 0
  }

  /** The last kind reported by each worker. */
  function Latest(records: seq<Record>): map<(string, int), Kind> {
    if records == [] then map[]
    else
      var r := records[|records| - 1];
      Latest(records[..|records| - 1])[(r.model, r.rank) := r.kind]
  }

  /** Said without the order of updates: an entry is a record after which that worker said nothing. */
  lemma {:induction false} LatestIsLast(records: seq<Record>, model: string, rank: int, kind: Kind)
    ensures ((model, rank) in Latest(records) && Latest(records)[(model, rank)] == kind) <==>
            exists i :: 0 <= i < |records| && records[i] == Record(kind, model, rank) && Silent(records, model, rank, i)
    decreases |records|
  {
    if records != [] {
      var n := |records| - 1;
      var before, r := records[..n], records[n];
      LatestIsLast(before, model, rank, kind);
      if r.model == model && r.rank == rank {
        assert r.kind == kind ==> records[n] == Record(kind, model, rank) && Silent(records, model, rank, n);
        assert forall i | 0 <= i < n :: !Silent(records, model, rank, i);
      } else {
        assert forall i | 0 <= i < n :: Silent(records, model, rank, i) <==> Silent(before, model, rank, i);
        assert forall i | 0 <= i < n :: records[i] == before[i];
      }
    }
  }

  lemma LatestSnoc(records: seq<Record>, r: Record)
    ensures Latest(records + [r]) == Latest(records)[(r.model, r.rank) := r.kind]
  {
    assert (records + [r])[..|records|] == records;
  }

  /** The worker says nothing after position i. */
  ghost predicate Silent(records: seq<Record>, model: string, rank: int, i: nat) {
    forall j | i < j < |records| :: records[j].model != model || records[j].rank != rank
  }

  /** Records of the two models' ranks. */
  ghost predicate Ranks(c: Config, records: seq<Record>) {
    forall i | 0 <= i < |records| :: 0 <= records[i].rank < c.tp && (records[i].model == "A" || records[i].model == "B")
  }

  ghost function ToNote(c: Config, r: Record): Note
    requires r.rank >= 0
  {
    Note(r.kind, if r.model == "A" then r.rank else c.tp + r.rank)
  }

  ghost function ToNotes(c: Config, records: seq<Record>): seq<Note>
    requires Ranks(c, records)
  {
    if records == [] then [] else ToNotes(c, records[..|records| - 1]) + [ToNote(c, records[|records| - 1])]
  }

  /** The tallies kept here are the counts the protocol is reasoned about with. */
  lemma {:induction false} TallyIsCount(c: Config, records: seq<Record>, kind: Kind)
    requires Ranks(c, records)
    ensures CountOf(records, kind, None) == Count(ToNotes(c, records), kind)
    ensures CountOf(records, kind, Some("A")) == CountModel(c, ToNotes(c, records), kind, true)
    ensures CountOf(records, kind, Some("B")) == CountModel(c, ToNotes(c, records), kind, false)
    decreases |records|
  {
    if records != [] {
      var n := |records| - 1;
      var before, notes := records[..n], ToNotes(c, records);
      TallyIsCount(c, before, kind);
      assert notes[..|notes| - 1] == ToNotes(c, before) && notes[|notes| - 1] == ToNote(c, records[n]);
    }
  }

  class OperationStates {
    var messages: seq<Record>
    var states: map<(string, int), Kind>

    ghost predicate Valid()
      reads this
    {
      states == Latest(messages)
    }

    constructor ()
      ensures Valid() && messages == []
    {
      messages, states := [], map[];
    }

    /** The event is recorded even when it is an ERROR, and only then refused. */
    method Add(role: string, m: Message) returns (ok: bool)
      requires Valid()
      modifies this
      ensures Valid()
      ensures messages == old(messages) + (if Admit(role, m).Some? then [Admit(role, m).value] else [])
      ensures ok <==> Fine(role, m)
    {
      hide Latest;
      if !m.Event? { return false; }
      if m.kind.None? || m.model != role || m.rank.None? { return false; }
      var r := Record(m.kind.value, m.model, m.rank.value);
      LatestSnoc(messages, r);
      messages := messages + [r];
      states := states[(r.model, r.rank) := r.kind];
      ok := r.kind != ERROR;
    }

    method Tally(kind: Kind, model: Option<string>) returns (n: nat)
      ensures n == CountOf(messages, kind, model)
    {
      n := 0;
      for i := 0 to |messages|
        invariant n == CountOf(messages[..i], kind, model)
      {
        assert messages[..i + 1][..i] == messages[..i];
        if Matches(messages[i], kind, model) { n := n + 1; }
      }
      assert messages[..|messages|] == messages;
    }
  }

  datatype Outcome = Reached | TimedOut | Raised

  datatype Incoming = Incoming(role: string, message: Message)

  function Admitted(incoming: seq<Incoming>): seq<Record> {
    if incoming == [] then []
    else
      var x := incoming[|incoming| - 1];
      Admitted(incoming[..|incoming| - 1]) + if Admit(x.role, x.message).Some? then [Admit(x.role, x.message).value] else []
  }

  lemma AdmittedSnoc(incoming: seq<Incoming>, n: nat)
    requires n < |incoming|
    ensures var x := incoming[n];
            Admitted(incoming[..n + 1]) ==
            Admitted(incoming[..n]) + if Admit(x.role, x.message).Some? then [Admit(x.role, x.message).value] else []
  {
    assert incoming[..n + 1][..n] == incoming[..n];
  }

  /** Waiting for more after n messages: all of them fine, and not enough yet. */
  ghost predicate StillWaiting(before: seq<Record>, incoming: seq<Incoming>, n: nat, kind: Kind, count: nat, model: Option<string>) {
    && n <= |incoming|
    && (forall i | 0 <= i < n :: Fine(incoming[i].role, incoming[i].message))
    && CountOf(before + Admitted(incoming[..n]), kind, model) < count
  }

  /**
   Take messages until `count` of the wanted kind are recorded.  `incoming` is what arrives
   before the deadline.  No message is taken once the count is reached, and the first bad
   one ends the wait.
   */
  method CollectUntil(states: OperationStates, incoming: seq<Incoming>, kind: Kind, count: nat, model: Option<string>)
    returns (out: Outcome, used: nat)
    requires states.Valid()
    modifies states
    ensures states.Valid() && used <= |incoming|
    ensures states.messages == old(states.messages) + Admitted(incoming[..used])
    ensures forall n | 0 <= n < used :: StillWaiting(old(states.messages), incoming, n, kind, count, model)
    ensures match out
            case Reached => CountOf(states.messages, kind, model) >= count
                            && forall i | 0 <= i < used :: Fine(incoming[i].role, incoming[i].message)
            case TimedOut => used == |incoming| && StillWaiting(old(states.messages), incoming, used, kind, count, model)
            case Raised => used > 0 && !Fine(incoming[used - 1].role, incoming[used - 1].message)
  {
    hide CountOf, Latest, Admit, Fine;
    used := 0;
    ghost var before := states.messages;
    assert before + Admitted(incoming[..0]) == before;
    var n := states.Tally(kind, model);
    while n < count
      invariant used <= |incoming| && states.Valid()
      invariant states.messages == before + Admitted(incoming[..used])
      invariant n == CountOf(states.messages, kind, model)
      invariant forall i | 0 <= i < used :: Fine(incoming[i].role, incoming[i].message)
      invariant forall i | 0 <= i < used :: StillWaiting(before, incoming, i, kind, count, model)
      decreases |incoming| - used
    {
      if used == |incoming| { return TimedOut, used; }
      assert StillWaiting(before, incoming, used, kind, count, model);
      AdmittedSnoc(incoming, used);
      var x := incoming[used];
      var ok := states.Add(x.role, x.message);
      used := used + 1;
      assert states.messages == before + Admitted(incoming[..used]);
      if !ok { return Raised, used; }
      n := states.Tally(kind, model);
    }
    out := Reached;
  }

  // ---------------------------------------------------------------- the single-host collector

  /** What one connection yields when it is ready: a message, or the end of the stream. */
  datatype Arrival = Got(note: Note) | Closed(connection: nat)

  function NotesIn(round: seq<Arrival>): seq<Note> {
    if round == [] then []
    else NotesIn(round[..|round| - 1]) + match round[|round| - 1] case Got(note) => [note] case Closed(_) => []
  }

  function ClosedIn(round: seq<Arrival>): set<nat> {
    if round == [] then {}
    else ClosedIn(round[..|round| - 1]) + match round[|round| - 1] case Got(_) => {} case Closed(c) => {c}
  }

  function NotesOf(rounds: seq<seq<Arrival>>): seq<Note> {
    if rounds == [] then [] else NotesOf(rounds[..|rounds| - 1]) + NotesIn(rounds[|rounds| - 1])
  }

  function ClosedBy(rounds: seq<seq<Arrival>>): set<nat> {
    if rounds == [] then {} else ClosedBy(rounds[..|rounds| - 1]) + ClosedIn(rounds[|rounds| - 1])
  }

  /** The wait goes on: too few of the wanted kind, no error reported, somebody still connected. */
  predicate GoesOn(messages: seq<Note>, open: set<nat>, kind: Kind, count: nat) {
    Count(messages, kind) < count && Count(messages, ERROR) == 0 && open != {}
  }

  class StatusCollector {
    var open: set<nat>
    var messages: seq<Note>

    constructor (connections: set<nat>)
      ensures open == connections && messages == []
    {
      open, messages := connections, [];
    }

    /**
     Take what arrives, one round of ready connections after the other, while the wait goes on.
     `rounds` is what arrives before the deadline.  A round is taken as a whole, so the count
     may be exceeded; and an error ends the wait without undoing a count that was reached.
     */
    method Until(kind: Kind, count: nat, rounds: seq<seq<Arrival>>) returns (reached: bool, used: nat)
      modifies this
      ensures used <= |rounds|
      ensures messages == old(messages) + NotesOf(rounds[..used]) && open == old(open) - ClosedBy(rounds[..used])
      ensures forall k | 0 <= k < used ::
                GoesOn(old(messages) + NotesOf(rounds[..k]), old(open) - ClosedBy(rounds[..k]), kind, count)
      ensures used < |rounds| ==> !GoesOn(messages, open, kind, count)
      ensures reached <==> Count(messages, kind) >= count
    {
      hide Count;
      used := 0;
      ghost var before, all := messages, open;
      assert messages == before + NotesOf(rounds[..0]) && open == all - ClosedBy(rounds[..0]);
      while GoesOn(messages, open, kind, count) && used < |rounds|
        invariant used <= |rounds|
        invariant messages == before + NotesOf(rounds[..used]) && open == all - ClosedBy(rounds[..used])
        invariant forall k | 0 <= k < used :: GoesOn(before + NotesOf(rounds[..k]), all - ClosedBy(rounds[..k]), kind, count)
        decreases |rounds| - used
      {
        hide GoesOn;
        assert rounds[..used + 1][..used] == rounds[..used];
        Receive(rounds[used]);
        used := used + 1;
      }
      reached := Count(messages, kind) >= count;
    }

    method Receive(round: seq<Arrival>)
      modifies this
      ensures messages == old(messages) + NotesIn(round) && open == old(open) - ClosedIn(round)
    {
      for i := 0 to |round|
        invariant messages == old(messages) + NotesIn(round[..i]) && open == old(open) - ClosedIn(round[..i])
      {
        assert round[..i + 1][..i] == round[..i];
        match round[i] {
          case Got(note) => messages := messages + [note];
          case Closed(c) => open := open - {c};
        }
      }
      assert round[..|round|] == round;
    }
  }
}
