/**
 Admitting the participants of an experiment, one role each.

 Connections are numbered in the order they are accepted.  Each brings a first message, or
 fails to within its time.  A role goes to the first connection that asks for it properly.
 A role that is a list or a mapping cannot be looked up at all, which ends the program.
 */
module Handshake {

  const PROTOCOL_VERSION: int := 1

  /** The role field: text, some other simple value or none, or a list or mapping. */
  datatype RoleField = Text(text: string) | Simple | Compound

  /** The fields looked at; a missing field is one that equals nothing wanted. */
  datatype Hello = Hello(kind: string, protocol: int, experiment: string, runId: string, role: RoleField)

  datatype Attempt = Silent | Said(hello: Hello)

  datatype Reason = NotHello | ProtocolMismatch | ExperimentMismatch | RunMismatch | UnexpectedRole | DuplicateRole

  datatype Answer = Rejected(reason: Reason) | Welcome | Crash

  datatype Outcome = AllHeld | TimedOut | Crashed

  /** What the experiment asks of every HELLO. */
  datatype Terms = Terms(experiment: string, runId: string, wanted: set<string>)

  predicate Matching(h: Hello, t: Terms) {
    h.kind == "HELLO" && h.protocol == PROTOCOL_VERSION && h.experiment == t.experiment && h.runId == t.runId
  }

  /** Everything a HELLO must say, except that its role must still be free. */
  predicate Proper(h: Hello, t: Terms) { Matching(h, t) && h.role.Text? && h.role.text in t.wanted }

  predicate Asks(a: Attempt, t: Terms, role: string) {
    a.Said? && Proper(a.hello, t) && a.hello.role.text == role
  }

  /** A HELLO that gets as far as looking up a role that cannot be looked up. */
  predicate Crashes(a: Attempt, t: Terms) { a.Said? && Matching(a.hello, t) && a.hello.role.Compound? }

  /** The earliest of the first n attempts that properly asks for the role, or n. */
  function FirstFor(attempts: seq<Attempt>, n: nat, t: Terms, role: string): (i: nat)
    requires n <= |attempts|
    ensures i <= n
    ensures forall j | 0 <= j < i :: !Asks(attempts[j], t, role)
    ensures i < n ==> Asks(attempts[i], t, role)
  {
    if n == 0 then 0
    else
      var i := FirstFor(attempts, n - 1, t, role);
      if i < n - 1 || Asks(attempts[n - 1], t, role) then i else n
  }

  /** The roles asked for among the first n attempts, each with the attempt that got it. */
  ghost predicate Holds(peers: map<string, nat>, attempts: seq<Attempt>, n: nat, t: Terms)
    requires n <= |attempts|
  {
    && peers.Keys <= t.wanted
    && forall role | role in t.wanted ::
         var i := FirstFor(attempts, n, t, role);
         (role in peers <==> i < n) && (role in peers ==> peers[role] == i)
  }

  /** Every wanted role has been properly asked for among the first n attempts. */
  ghost predicate Complete(attempts: seq<Attempt>, n: nat, t: Terms)
    requires n <= |attempts|
  {
    forall role | role in t.wanted :: exists i :: 0 <= i < n && Asks(attempts[i], t, role)
  }

  ghost predicate NoCrash(attempts: seq<Attempt>, n: nat, t: Terms)
    requires n <= |attempts|
  {
    forall i | 0 <= i < n :: !Crashes(attempts[i], t)
  }

  /** All roles are held after n attempts, none of which ended the program. */
  ghost predicate Settled(attempts: seq<Attempt>, n: nat, t: Terms)
    requires n <= |attempts|
  {
    Complete(attempts, n, t) && NoCrash(attempts, n, t)
  }

  class CoordinatorServer {
    const experiment: string
    const runId: string
    var peers: map<string, nat>

    constructor (experiment: string, runId: string)
      ensures this.experiment == experiment && this.runId == runId && peers == map[]
    {
      this.experiment, this.runId, peers := experiment, runId, map[];
    }

    /** The first check that fails gives the reason. */
    method Reject(h: Hello, wanted: set<string>) returns (answer: Answer)
      ensures var t := Terms(experiment, runId, wanted);
              && (answer.Welcome? <==> Proper(h, t) && h.role.text !in peers)
              && (answer == Rejected(DuplicateRole) <==> Proper(h, t) && h.role.text in peers)
              && (answer.Crash? <==> Matching(h, t) && h.role.Compound?)
      ensures answer == Rejected(NotHello) <==> h.kind != "HELLO"
      ensures answer == Rejected(ProtocolMismatch) <==> h.kind == "HELLO" && h.protocol != PROTOCOL_VERSION
      ensures answer == Rejected(ExperimentMismatch) <==>
                h.kind == "HELLO" && h.protocol == PROTOCOL_VERSION && h.experiment != experiment
      ensures answer == Rejected(RunMismatch) <==>
                h.kind == "HELLO" && h.protocol == PROTOCOL_VERSION && h.experiment == experiment && h.runId != runId
    {
      if h.kind != "HELLO" { return Rejected(NotHello); }
      if h.protocol != PROTOCOL_VERSION { return Rejected(ProtocolMismatch); }
      if h.experiment != experiment { return Rejected(ExperimentMismatch); }
      if h.runId != runId { return Rejected(RunMismatch); }
      if h.role.Compound? { return Crash; }
      if h.role.Simple? || h.role.text !in wanted { return Rejected(UnexpectedRole); }
      if h.role.text in peers { return Rejected(DuplicateRole); }
      answer := Welcome;
    }

    /** Connection n is admitted, turned away or given up on, or ends the program. */
    method Consider(attempts: seq<Attempt>, n: nat, wanted: set<string>) returns (ok: bool)
      requires n < |attempts| && Holds(peers, attempts, n, Terms(experiment, runId, wanted))
      modifies this
      ensures Holds(peers, attempts, n + 1, Terms(experiment, runId, wanted))
      ensures ok <==> !Crashes(attempts[n], Terms(experiment, runId, wanted))
    {
      NextAttempt(peers, attempts, n, Terms(experiment, runId, wanted));
      hide Holds, Matching;
      ok := true;
      if attempts[n].Said? {
        var h := attempts[n].hello;
        var answer := Reject(h, wanted);
        if answer.Crash? { return false; }
        if answer.Welcome? { peers := peers[h.role.text := n]; }
      }
    }

    /**
     Take connections until every wanted role is held.  `attempts` are those that come before
     the deadline.  Each role is held by the first connection that asked for it properly, no
     connection is taken once all roles are held, and the wait succeeds exactly when all roles
     are properly asked for before a connection ends the program.
     */
    method AcceptRoles(wanted: set<string>, attempts: seq<Attempt>) returns (outcome: Outcome, used: nat)
      requires peers == map[]
      modifies this
      ensures var t := Terms(experiment, runId, wanted);
              && used <= |attempts| && Holds(peers, attempts, used, t)
              && (forall n | 0 <= n < used :: !Complete(attempts, n, t) && NoCrash(attempts, n, t))
              && (outcome.AllHeld? ==> Settled(attempts, used, t) && peers.Keys == wanted)
              && (outcome.TimedOut? ==> used == |attempts| && !Complete(attempts, used, t) && NoCrash(attempts, used, t))
              && (outcome.Crashed? ==> used > 0 && Crashes(attempts[used - 1], t))
              && (outcome.AllHeld? <==> exists n :: 0 <= n <= |attempts| && Settled(attempts, n, t))
    {
      hide FirstFor, Holds, Complete, Proper, Asks, Matching, NoCrash, Crashes;
      ghost var t := Terms(experiment, runId, wanted);
      used, outcome := 0, TimedOut;
      HoldsNothing(attempts, t);
      while peers.Keys != wanted && used < |attempts| && !outcome.Crashed?
        invariant used <= |attempts| && Holds(peers, attempts, used, t)
        invariant forall n | 0 <= n < used :: !Complete(attempts, n, t) && NoCrash(attempts, n, t)
        invariant outcome.TimedOut? ==> NoCrash(attempts, used, t)
        invariant outcome.Crashed? ==> used > 0 && Crashes(attempts[used - 1], t)
        invariant !outcome.AllHeld?
        decreases |attempts| - used, if outcome.Crashed? then 0 else 1
      {
        HoldsAll(peers, attempts, used, t);
        CrashNext(attempts, used, t);
        var ok := Consider(attempts, used, wanted);
        used := used + 1;
        if !ok { outcome := Crashed; }
      }
      HoldsAll(peers, attempts, used, t);
      if !outcome.Crashed? && peers.Keys == wanted { outcome := AllHeld; }
      Decided(attempts, used, t, outcome);
    }
  }

  lemma CrashNext(attempts: seq<Attempt>, n: nat, t: Terms)
    requires n < |attempts| && NoCrash(attempts, n, t)
    ensures !Crashes(attempts[n], t) ==> NoCrash(attempts, n + 1, t)
  {
    hide Crashes;
  }

  /** What the loop has seen decides whether it could have succeeded at all. */
  lemma Decided(attempts: seq<Attempt>, used: nat, t: Terms, outcome: Outcome)
    requires used <= |attempts| && forall n | 0 <= n < used :: !Complete(attempts, n, t)
    requires outcome.AllHeld? ==> Settled(attempts, used, t)
    requires outcome.TimedOut? ==> used == |attempts| && !Complete(attempts, used, t)
    requires outcome.Crashed? ==> used > 0 && Crashes(attempts[used - 1], t)
    ensures outcome.AllHeld? <==> exists n :: 0 <= n <= |attempts| && Settled(attempts, n, t)
  {
    hide Complete, Crashes;
    if n :| 0 <= n <= |attempts| && Settled(attempts, n, t) {
      if !outcome.AllHeld? { assert false; }
    }
  }

  lemma HoldsNothing(attempts: seq<Attempt>, t: Terms)
    ensures Holds(map[], attempts, 0, t) && NoCrash(attempts, 0, t)
  {
    hide Asks;
  }

  lemma HoldsAll(peers: map<string, nat>, attempts: seq<Attempt>, n: nat, t: Terms)
    requires n <= |attempts| && Holds(peers, attempts, n, t)
    ensures peers.Keys == t.wanted <==> Complete(attempts, n, t)
  {
    hide Asks;
    forall role | role in t.wanted
      ensures role in peers <==> exists i :: 0 <= i < n && Asks(attempts[i], t, role)
    {
      var i := FirstFor(attempts, n, t, role);
    }
    if Complete(attempts, n, t) {
      assert peers.Keys == t.wanted;
    }
  }

  /** One more connection: the role it asks for is its own if nobody had it. */
  lemma NextAttempt(peers: map<string, nat>, attempts: seq<Attempt>, n: nat, t: Terms)
    requires n < |attempts| && Holds(peers, attempts, n, t)
    ensures var a := attempts[n];
            if a.Said? && Proper(a.hello, t) && a.hello.role.text !in peers
            then Holds(peers[a.hello.role.text := n], attempts, n + 1, t)
            else Holds(peers, attempts, n + 1, t)
  {
    forall role | role in t.wanted
      ensures var i := FirstFor(attempts, n, t, role);
              FirstFor(attempts, n + 1, t, role) == if i < n || Asks(attempts[n], t, role) then i else n + 1
    {
    }
  }

  /** It can happen: the role is asked for properly, but after a HELLO whose role is a list. */
  lemma CompoundRoleEndsIt(experiment: string, runId: string) returns (t: Terms, attempts: seq<Attempt>)
    ensures Complete(attempts, |attempts|, t)
    ensures forall n | 0 <= n <= |attempts| :: !Settled(attempts, n, t)
  {
    t := Terms(experiment, runId, {"A"});
    var first := Hello("HELLO", PROTOCOL_VERSION, experiment, runId, Compound);
    attempts := [Said(first), Said(first.(role := Text("A")))];
    assert Crashes(attempts[0], t) && Asks(attempts[1], t, "A");
    assert "A" in t.wanted && !Complete(attempts, 0, t);
  }
}
