/**
 Dividing a cpuset among NPUs, by processes that see only some of the NPUs and do not talk
 to each other.
 */
module CpuBinding {
  import opened Basics

  const MIN_CPUS_PER_NPU: nat := 5

  /** What a process finds out about its machine; only `running` differs between processes. */
  datatype DeviceInfo = DeviceInfo(
    allowed: seq<int>, running: seq<int>, allLogic: seq<int>, affinity: map<int, seq<int>>)

  datatype Reason = InsufficientCpus | InvalidNpu | AffinityConflict | UnknownCpu | UnknownNpu

  datatype Status = Ok | Failed(reason: Reason)

  // ---------------------------------------------------------------- sorting

  ghost predicate StrictlySorted(s: seq<int>) {
    forall i, j | 0 <= i < j < |s| :: s[i] < s[j]
  }

  ghost predicate Sorted(s: seq<int>) {
    forall i, j | 0 <= i < j < |s| :: s[i] <= s[j]
  }

  function InsertNew(s: seq<int>, x: int): seq<int> {
    if s == [] then [x]
    else if x < s[0] then [x] + s
    else if x == s[0] then s
    else [s[0]] + InsertNew(s[1..], x)
  }

  lemma {:induction false} InsertNewIs(s: seq<int>, x: int)
    requires StrictlySorted(s)
    ensures StrictlySorted(InsertNew(s, x))
    ensures forall y :: y in InsertNew(s, x) <==> y in s || y == x
  {
    if s != [] && s[0] < x {
      InsertNewIs(s[1..], x);
      PutFirst(s[0], InsertNew(s[1..], x));
      assert forall y :: y in s <==> y == s[0] || y in s[1..];
    } else if s != [] && x < s[0] {
      PutFirst(x, s);
    }
  }

  lemma PutFirst(x: int, r: seq<int>)
    requires StrictlySorted(r) && forall y | y in r :: x < y
    ensures StrictlySorted([x] + r)
    ensures forall y :: y in [x] + r <==> y == x || y in r
  {
    assert forall i | 0 <= i < |r| :: r[i] in r;
  }

  /** The elements of s, each once, in increasing order. */
  function SortedSet(s: seq<int>): (r: seq<int>)
    ensures StrictlySorted(r) && forall y :: y in r <==> y in s
  {
    if s == [] then [] else
      var n := |s| - 1;
      var r := SortedSet(s[..n]);
      InsertNewIs(r, s[n]);
      assert s == s[..n] + [s[n]];
      InsertNew(r, s[n])
  }

  function Insert(s: seq<int>, x: int): seq<int> {
    if s == [] then [x] else if x <= s[0] then [x] + s else [s[0]] + Insert(s[1..], x)
  }

  lemma {:induction false} InsertIs(s: seq<int>, x: int)
    requires Sorted(s)
    ensures Sorted(Insert(s, x)) && |Insert(s, x)| == |s| + 1
    ensures forall y :: y in Insert(s, x) <==> y in s || y == x
  {
    if s != [] && s[0] < x {
      InsertIs(s[1..], x);
      PutLeast(s[0], Insert(s[1..], x));
      assert forall y :: y in s <==> y == s[0] || y in s[1..];
    } else if s != [] {
      PutLeast(x, s);
    }
  }

  lemma PutLeast(x: int, r: seq<int>)
    requires Sorted(r) && forall y | y in r :: x <= y
    ensures Sorted([x] + r)
    ensures forall y :: y in [x] + r <==> y == x || y in r
  {
    assert forall i | 0 <= i < |r| :: r[i] in r;
  }

  lemma {:induction false} InsertCounts(s: seq<int>, x: int)
    ensures multiset(Insert(s, x)) == multiset(s) + multiset{x}
  {
    if s != [] {
      if s[0] < x { InsertCounts(s[1..], x); }
      assert s == [s[0]] + s[1..];
    }
  }

  /** The elements of s as often as they occur, in increasing order. */
  function Sort(s: seq<int>): seq<int> {
    if s == [] then [] else Insert(Sort(s[..|s| - 1]), s[|s| - 1])
  }

  lemma {:induction false} SortIs(s: seq<int>)
    ensures Sorted(Sort(s)) && multiset(Sort(s)) == multiset(s)
    decreases |s|
  {
    if s != [] {
      SortIs(s[..|s| - 1]);
      SortStep(s, Sort(s[..|s| - 1]));
    }
  }

  lemma SortStep(s: seq<int>, r: seq<int>)
    requires s != [] && Sorted(r) && multiset(r) == multiset(s[..|s| - 1])
    ensures var r' := Insert(r, s[|s| - 1]); Sorted(r') && multiset(r') == multiset(s)
  {
    hide Insert;
    var n := |s| - 1;
    InsertIs(r, s[n]);
    InsertCounts(r, s[n]);
    assert s == s[..n] + [s[n]];
  }

  ghost predicate SameElements(a: seq<int>, b: seq<int>) { forall y :: y in a <==> y in b }

  lemma Shares(a: seq<int>, b: seq<int>, y: int)
    requires SameElements(a, b)
    ensures y in a <==> y in b
  {
  }

  lemma {:induction false} InsertLast(s: seq<int>, x: int)
    requires Sorted(s) && forall i | 0 <= i < |s| :: s[i] <= x
    ensures Insert(s, x) == s + [x]
  {
    if s != [] {
      if x <= s[0] {
        assert forall i | 0 <= i < |s| :: s[i] == x;
      } else {
        InsertLast(s[1..], x);
        assert s == [s[0]] + s[1..];
      }
    }
  }

  /** Sorting leaves a sorted list alone. */
  lemma {:induction false} SortOfSorted(s: seq<int>)
    requires Sorted(s)
    ensures Sort(s) == s
    decreases |s|
  {
    if s != [] {
      var n := |s| - 1;
      assert Sort(s) == Insert(Sort(s[..n]), s[n]);
      hide Sort, Insert;
      SortOfSorted(s[..n]);
      InsertLast(s[..n], s[n]);
      assert s == s[..n] + [s[n]];
    }
  }

  /** Two strictly sorted lists of the same elements are the same list. */
  lemma {:induction false} SortedUnique(a: seq<int>, b: seq<int>)
    requires StrictlySorted(a) && StrictlySorted(b) && SameElements(a, b)
    ensures a == b
    decreases |a|
  {
    hide SameElements;
    if a != [] { Shares(a, b, a[0]); }
    if b != [] { Shares(a, b, b[0]); }
    if a != [] && b != [] {
      assert a[0] == b[0];
      SameTails(a, b);
      SortedUnique(a[1..], b[1..]);
    }
  }

  lemma SameTails(a: seq<int>, b: seq<int>)
    requires StrictlySorted(a) && StrictlySorted(b) && SameElements(a, b) && a != [] && b != [] && a[0] == b[0]
    ensures StrictlySorted(a[1..]) && StrictlySorted(b[1..]) && SameElements(a[1..], b[1..])
  {
    hide SameElements;
    forall y
      ensures y in a[1..] <==> y in b[1..]
    {
      Shares(a, b, y);
      assert a == [a[0]] + a[1..] && b == [b[0]] + b[1..];
      assert a[0] !in a[1..] && b[0] !in b[1..];
    }
    SameByElements(a[1..], b[1..]);
  }

  lemma SameByElements(a: seq<int>, b: seq<int>)
    requires forall y :: y in a <==> y in b
    ensures SameElements(a, b)
  {
  }

  /** In what order and how often the cpuset is listed makes no difference. */
  lemma SortedSetOfSame(a: seq<int>, b: seq<int>)
    requires forall y :: y in a <==> y in b
    ensures SortedSet(a) == SortedSet(b)
  {
    SortedUnique(SortedSet(a), SortedSet(b));
  }

  // ---------------------------------------------------------------- global slices

  function TotalNpus(d: DeviceInfo): nat {
    if d.allLogic != [] then |d.allLogic|
    else if d.affinity != map[] then |d.affinity|
    else |d.running|
  }

  /** Where slice i begins when n CPUs are divided into `total` slices. */
  function StartOf(n: nat, total: nat, i: nat): nat
    requires total > 0
  {
    i * (n / total) + if i < n % total then i else n % total
  }

  function TakeOf(n: nat, total: nat, i: nat): (k: nat)
    requires total > 0
    ensures n / total <= k <= n / total + 1
  {
    n / total + if i < n % total then 1 else 0
  }

  lemma StartNext(n: nat, total: nat, i: nat)
    requires total > 0
    ensures StartOf(n, total, i + 1) == StartOf(n, total, i) + TakeOf(n, total, i)
  {
    assert (i + 1) * (n / total) == i * (n / total) + n / total;
  }

  lemma StartOfEnd(n: nat, total: nat)
    requires total > 0
    ensures StartOf(n, total, 0) == 0 && StartOf(n, total, total) == n
  {
    assert n == total * (n / total) + n % total;
  }

  lemma {:induction false} StartMonotone(n: nat, total: nat, i: nat, j: nat)
    requires total > 0 && i <= j
    ensures StartOf(n, total, i) <= StartOf(n, total, j)
    decreases j
  {
    if i < j {
      StartMonotone(n, total, i, j - 1);
      StartNext(n, total, j - 1);
    }
  }

  lemma SliceInside(n: nat, total: nat, i: nat)
    requires i < total
    ensures StartOf(n, total, i) + TakeOf(n, total, i) <= n
  {
    StartNext(n, total, i);
    StartMonotone(n, total, i + 1, total);
    StartOfEnd(n, total);
  }

  function SliceFor(cpus: seq<int>, total: nat, i: nat): (slice: seq<int>)
    requires i < total
    ensures |slice| == TakeOf(|cpus|, total, i)
    ensures forall c | c in slice :: c in cpus
  {
    SliceInside(|cpus|, total, i);
    cpus[StartOf(|cpus|, total, i)..StartOf(|cpus|, total, i) + TakeOf(|cpus|, total, i)]
  }

  /** The slice that position k of the cpuset falls into. */
  function OwnerOf(n: nat, total: nat, m: nat, k: nat): (i: nat)
    requires total > 0 && k < StartOf(n, total, m)
    ensures i < m && StartOf(n, total, i) <= k < StartOf(n, total, i + 1)
    decreases m
  {
    StartOfEnd(n, total);
    if k < StartOf(n, total, m - 1) then OwnerOf(n, total, m - 1, k) else m - 1
  }

  /** Every CPU of the cpuset is in some slice ... */
  lemma SlicesCover(cpus: seq<int>, total: nat, c: int) returns (i: nat)
    requires total > 0 && c in cpus
    ensures i < total && c in SliceFor(cpus, total, i)
  {
    var n := |cpus|;
    var k :| 0 <= k < n && cpus[k] == c;
    StartOfEnd(n, total);
    i := OwnerOf(n, total, total, k);
    StartNext(n, total, i);
    SliceInside(n, total, i);
    hide StartOf, TakeOf, OwnerOf;
    var start := StartOf(n, total, i);
    assert cpus[start..start + TakeOf(n, total, i)][k - start] == c;
  }

  /** ... and in no other. */
  lemma SlicesDisjoint(cpus: seq<int>, total: nat, i: nat, j: nat, c: int)
    requires StrictlySorted(cpus) && i < total && j < total && i != j
    ensures !(c in SliceFor(cpus, total, i) && c in SliceFor(cpus, total, j))
  {
    var n := |cpus|;
    var lo, hi := if i < j then i else j, if i < j then j else i;
    SliceInside(n, total, lo);
    SliceInside(n, total, hi);
    StartNext(n, total, lo);
    StartMonotone(n, total, lo + 1, hi);
    hide StartOf, TakeOf;
    Apart(cpus, StartOf(n, total, lo), StartOf(n, total, lo + 1), StartOf(n, total, hi), StartOf(n, total, hi) + TakeOf(n, total, hi), c);
  }

  /** Ranges that follow each other in a strictly sorted list share no element. */
  lemma Apart(s: seq<int>, a: nat, b: nat, c: nat, d: nat, x: int)
    requires StrictlySorted(s) && a <= b <= c <= d <= |s|
    ensures !(x in s[a..b] && x in s[c..d])
  {
  }

  // ---------------------------------------------------------------- roles within a pool

  datatype Role = Irq | Main | Acl | Release

  /** The CPUs of a pool that serve a role. */
  function RoleCpus(pool: seq<int>, role: Role): seq<int>
    requires |pool| >= MIN_CPUS_PER_NPU
  {
    var n := |pool|;
    match role
    case Irq => pool[..2]
    case Main => pool[2..n - 2]
    case Acl => [pool[n - 2]]
    case Release => [pool[n - 1]]
  }

  /** The roles divide the pool among them, with something left for the main threads. */
  lemma RolesDivide(pool: seq<int>)
    requires |pool| >= MIN_CPUS_PER_NPU
    ensures RoleCpus(pool, Irq) + RoleCpus(pool, Main) + RoleCpus(pool, Acl) + RoleCpus(pool, Release) == pool
    ensures RoleCpus(pool, Main) != []
  {
  }

  lemma RoleRanges(pool: seq<int>)
    requires |pool| >= MIN_CPUS_PER_NPU
    ensures var n := |pool|; Serves(pool, pool[2..n - 2], [pool[n - 2]], [pool[n - 1]])
  {
  }

  ghost predicate Serves(pool: seq<int>, main: seq<int>, acl: seq<int>, rel: seq<int>) {
    && |pool| >= MIN_CPUS_PER_NPU
    && main == RoleCpus(pool, Main) && acl == RoleCpus(pool, Acl) && rel == RoleCpus(pool, Release)
  }

  function RoleRange(n: nat, role: Role): (r: (nat, nat))
    requires n >= MIN_CPUS_PER_NPU
    ensures r.0 <= r.1 <= n
  {
    match role
    case Irq => (0, 2)
    case Main => (2, n - 2)
    case Acl => (n - 2, n - 1)
    case Release => (n - 1, n)
  }

  lemma RolesApart(pool: seq<int>, r: Role, q: Role, c: int)
    requires StrictlySorted(pool) && |pool| >= MIN_CPUS_PER_NPU && r != q
    ensures !(c in RoleCpus(pool, r) && c in RoleCpus(pool, q))
  {
    var n := |pool|;
    assert forall role :: RoleCpus(pool, role) == pool[RoleRange(n, role).0..RoleRange(n, role).1];
    var a, b := RoleRange(n, r), RoleRange(n, q);
    if a.1 <= b.0 {
      Apart(pool, a.0, a.1, b.0, b.1, c);
    } else {
      Apart(pool, b.0, b.1, a.0, a.1, c);
    }
  }

  /**
   No CPU serves two purposes: over all NPUs of all processes that agree on the cpuset and
   the number of NPUs, a CPU has at most one NPU and one role.
   */
  lemma OnePurpose(cpus: seq<int>, total: nat, i: nat, r: Role, j: nat, q: Role, c: int)
    requires StrictlySorted(cpus) && i < total && j < total && |cpus| / total >= MIN_CPUS_PER_NPU
    ensures c in RoleCpus(SliceFor(cpus, total, i), r) && c in RoleCpus(SliceFor(cpus, total, j), q) ==> i == j && r == q
  {
    var mine, yours := SliceFor(cpus, total, i), SliceFor(cpus, total, j);
    SliceSorted(cpus, total, i);
    if i != j { SlicesDisjoint(cpus, total, i, j, c); }
    hide SliceFor;
    RoleInPool(mine, r, c);
    RoleInPool(yours, q, c);
    if r != q { RolesApart(mine, r, q, c); }
  }

  lemma RoleInPool(pool: seq<int>, role: Role, c: int)
    requires |pool| >= MIN_CPUS_PER_NPU
    ensures c in RoleCpus(pool, role) ==> c in pool
  {
  }

  lemma SliceSorted(cpus: seq<int>, total: nat, i: nat)
    requires StrictlySorted(cpus) && i < total
    ensures StrictlySorted(SliceFor(cpus, total, i))
  {
    SliceInside(|cpus|, total, i);
  }

  // ---------------------------------------------------------------- do processes agree on the number of NPUs?

  /** The process gets its slices: there are NPUs and CPUs, enough of these, and every NPU seen has a slice. */
  ghost predicate Slices(d: DeviceInfo) {
    && d.running != [] && d.allowed != [] && Distinct(d.running) && TotalNpus(d) > 0
    && |SortedSet(d.allowed)| / TotalNpus(d) >= MIN_CPUS_PER_NPU
    && InRange(d.running, TotalNpus(d))
  }

  ghost predicate Distinct(npus: seq<int>) {
    forall i, j | 0 <= i < j < |npus| :: npus[i] != npus[j]
  }

  ghost predicate InRange(npus: seq<int>, total: nat) {
    forall i | 0 <= i < |npus| :: 0 <= npus[i] < total
  }

  /** The process that sees NPU number i of its list hands CPU c to it. */
  ghost predicate Hands(d: DeviceInfo, i: nat, c: int)
    requires Slices(d) && i < |d.running|
  {
    c in SliceFor(SortedSet(d.allowed), TotalNpus(d), d.running[i])
  }

  /** No CPU is handed to two different NPUs by the two processes. */
  ghost predicate NoOverlap(d: DeviceInfo, d': DeviceInfo)
    requires Slices(d) && Slices(d')
  {
    forall i: nat, j: nat, c: int | i < |d.running| && j < |d'.running| && Hands(d, i, c) && Hands(d', j, c) ::
      d.running[i] == d'.running[j]
  }

  /** The last slice ends with the last CPU, whatever the number of slices. */
  lemma LastCpu(cpus: seq<int>, total: nat)
    requires total > 0 && |cpus| / total >= MIN_CPUS_PER_NPU
    ensures |cpus| > 0 && cpus[|cpus| - 1] in SliceFor(cpus, total, total - 1)
  {
    var n := |cpus|;
    SliceInside(n, total, total - 1);
    StartNext(n, total, total - 1);
    StartOfEnd(n, total);
    hide StartOf, TakeOf;
    var start := StartOf(n, total, total - 1);
    assert cpus[start..start + TakeOf(n, total, total - 1)][n - 1 - start] == cpus[n - 1];
  }

  /** As many different numbers below n as there can be: the greatest is among them. */
  lemma Pigeonhole(s: seq<int>) returns (i: nat)
    requires s != [] && Distinct(s) && InRange(s, |s|)
    ensures i < |s| && s[i] == |s| - 1
  {
    var n := |s|;
    ListedCount(s, n);
    BelowIs(n);
    assert ListedIn(s, n) <= Below(n);
    FullSet(ListedIn(s, n), Below(n), n - 1);
    i :| i < |s| && s[i] == n - 1;
  }

  /** The numbers listed among the first n entries. */
  ghost function ListedIn(s: seq<int>, n: nat): set<nat>
    requires n <= |s|
  {
    set i: nat | i < n && s[i] >= 0 :: s[i] as nat
  }

  lemma {:induction false} ListedCount(s: seq<int>, n: nat)
    requires n <= |s| && Distinct(s) && InRange(s, |s|)
    ensures |ListedIn(s, n)| == n
    decreases n
  {
    if n == 0 {
      assert ListedIn(s, n) == {};
    } else {
      ListedCount(s, n - 1);
      assert ListedIn(s, n) == ListedIn(s, n - 1) + {s[n - 1] as nat};
      assert s[n - 1] as nat !in ListedIn(s, n - 1);
    }
  }

  /** With one number of slices, different NPUs get different CPUs, whoever sees them. */
  lemma SameTotalApart(d: DeviceInfo, d': DeviceInfo)
    requires d' == d.(running := d'.running) && Slices(d) && Slices(d') && TotalNpus(d) == TotalNpus(d')
    ensures NoOverlap(d, d')
  {
    var cpus, total := SortedSet(d.allowed), TotalNpus(d);
    forall i: nat, j: nat, c: int | i < |d.running| && j < |d'.running| && Hands(d, i, c) && Hands(d', j, c)
      ensures d.running[i] == d'.running[j]
    {
      if d.running[i] != d'.running[j] { SlicesDisjoint(cpus, total, d.running[i], d'.running[j], c); }
    }
  }

  /** With different numbers of slices, the last CPU goes to the last NPU of either process. */
  lemma OtherTotalOverlaps(d: DeviceInfo, d': DeviceInfo)
    requires d' == d.(running := d'.running) && Slices(d) && Slices(d')
    requires TotalNpus(d) == |d.running| != |d'.running| == TotalNpus(d')
    ensures !NoOverlap(d, d')
  {
    var cpus := SortedSet(d.allowed);
    var i := Pigeonhole(d.running);
    var j := Pigeonhole(d'.running);
    LastCpu(cpus, |d.running|);
    LastCpu(cpus, |d'.running|);
    var c := cpus[|cpus| - 1];
    assert Hands(d, i, c) && Hands(d', j, c);
  }

  /**
   Two processes on the same machine that both get their slices never hand one CPU to
   different NPUs, if and only if the number of NPUs is known to both or they see equally many.
   */
  lemma SlicesNeverOverlap(d: DeviceInfo, d': DeviceInfo)
    requires d' == d.(running := d'.running) && Slices(d) && Slices(d')
    ensures NoOverlap(d, d') <==> d.allLogic != [] || d.affinity != map[] || |d.running| == |d'.running|
  {
    hide Slices, NoOverlap, InRange, Distinct;
    if d.allLogic != [] || d.affinity != map[] || |d.running| == |d'.running| {
      SameTotalApart(d, d');
    } else {
      OtherTotalOverlaps(d, d');
    }
  }

  /** It does happen: a process that sees NPU 0 and one that sees 0 and 1, with nothing else known. */
  lemma FallbackOverlaps() returns (d: DeviceInfo, d': DeviceInfo)
    ensures d' == d.(running := d'.running) && Slices(d) && Slices(d') && !NoOverlap(d, d')
  {
    var cpus := seq(10, i => i);
    d := DeviceInfo(cpus, [0], [], map[]);
    d' := DeviceInfo(cpus, [0, 1], [], map[]);
    SortedUnique(SortedSet(cpus), cpus);
    hide SortedSet, SliceFor, NoOverlap;
    SlicesNeverOverlap(d, d');
  }

  // ---------------------------------------------------------------- pools by affinity

  function Filter(s: seq<int>, allowed: seq<int>): seq<int> {
    if s == [] then []
    else Filter(s[..|s| - 1], allowed) + if s[|s| - 1] in allowed then [s[|s| - 1]] else []
  }

  function BaseCpus(d: DeviceInfo, npu: int): seq<int> {
    Filter(if npu in d.affinity then d.affinity[npu] else [], d.allowed)
  }

  /** NPUs this process must take into account: those it sees, and those that share its cpuset. */
  function Candidates(d: DeviceInfo, npus: seq<int>): seq<int> {
    if npus == [] then []
    else
      var npu := npus[|npus| - 1];
      Candidates(d, npus[..|npus| - 1]) + if npu in d.running || BaseCpus(d, npu) != [] then [npu] else []
  }

  datatype Extension = Extended(numa: map<int, seq<int>>, cpus: seq<int>) | UnknownNode

  predicate KnownNodes(node: map<int, int>, cpus: seq<int>) {
    forall i | 0 <= i < |cpus| :: cpus[i] in node
  }

  predicate OneNode(node: map<int, int>, cpus: seq<int>)
    requires KnownNodes(node, cpus)
  {
    forall i | 0 <= i < |cpus| :: node[cpus[i]] == node[cpus[0]]
  }

  /**
   CPUs on one node are joined by the allowed CPUs of the next node.  Looking a node up
   enters it, so the number of nodes the next lookup wraps around at may grow.
   */
  function ExtendNuma(numa: map<int, seq<int>>, node: map<int, int>, allowed: seq<int>, cpus: seq<int>): Extension {
    if cpus == [] then Extended(numa, [])
    else if !KnownNodes(node, cpus) then UnknownNode
    else if !OneNode(node, cpus) then Extended(numa, cpus)
    else if |numa| == 0 then UnknownNode
    else
      var next := (node[cpus[0]] + 1) % |numa|;
      var near := if next in numa then numa[next] else [];
      Extended(numa[next := near], SortedSet(cpus + Filter(near, allowed)))
  }

  datatype Plan = Planned(numa: map<int, seq<int>>, pools: seq<seq<int>>) | NoPlan(reason: Reason)

  /** The pools of the NPUs, in order, each before it is divided with others of the same pool. */
  function PlanPools(d: DeviceInfo, node: map<int, int>, numa: map<int, seq<int>>, npus: seq<int>): (p: Plan)
    ensures p.Planned? ==> |p.pools| == |npus|
  {
    if npus == [] then Planned(numa, [])
    else
      var npu := npus[|npus| - 1];
      var before := PlanPools(d, node, numa, npus[..|npus| - 1]);
      if before.NoPlan? then before
      else if BaseCpus(d, npu) == [] then NoPlan(AffinityConflict)
      else
        match ExtendNuma(before.numa, node, d.allowed, BaseCpus(d, npu))
        case UnknownNode => NoPlan(UnknownCpu)
        case Extended(numa', cpus) => Planned(numa', before.pools + [cpus])
  }

  lemma {:induction false} FilterIs(s: seq<int>, allowed: seq<int>, c: int)
    ensures c in Filter(s, allowed) <==> c in s && c in allowed
    decreases |s|
  {
    if s != [] {
      var n := |s| - 1;
      FilterIs(s[..n], allowed, c);
      assert s == s[..n] + [s[n]];
    }
  }

  /** c is on the node after that of the first of these CPUs. */
  predicate OfNextNode(numa: map<int, seq<int>>, node: map<int, int>, cpus: seq<int>, c: int) {
    && cpus != [] && cpus[0] in node && |numa| > 0
    && var next := (node[cpus[0]] + 1) % |numa|; next in numa && c in numa[next]
  }

  /** Extending keeps what was there and adds only allowed CPUs of the node that comes next. */
  lemma ExtendIs(numa: map<int, seq<int>>, node: map<int, int>, allowed: seq<int>, cpus: seq<int>, c: int)
    requires ExtendNuma(numa, node, allowed, cpus).Extended?
    ensures var r := ExtendNuma(numa, node, allowed, cpus).cpus;
            (c in cpus ==> c in r) && (c in r && c !in cpus ==> c in allowed && OfNextNode(numa, node, cpus, c))
  {
    if cpus != [] && KnownNodes(node, cpus) && OneNode(node, cpus) {
      var next := (node[cpus[0]] + 1) % |numa|;
      var near := if next in numa then numa[next] else [];
      FilterIs(near, allowed, c);
      assert c in SortedSet(cpus + Filter(near, allowed)) <==> c in cpus + Filter(near, allowed);
    }
  }

  lemma BaseAllowed(d: DeviceInfo, npu: int, c: int)
    requires c in BaseCpus(d, npu)
    ensures c in d.allowed
  {
    FilterIs(if npu in d.affinity then d.affinity[npu] else [], d.allowed, c);
  }

  /** Every pool holds the NPU's own CPUs and nothing outside the cpuset. */
  lemma {:induction false} PlanInCpuset(d: DeviceInfo, node: map<int, int>, numa: map<int, seq<int>>, npus: seq<int>, i: nat, c: int)
    requires PlanPools(d, node, numa, npus).Planned? && i < |npus|
    ensures var pool := PlanPools(d, node, numa, npus).pools[i];
            && (c in BaseCpus(d, npus[i]) ==> c in pool)
            && (c in pool ==> c in d.allowed)
    decreases |npus|
  {
    hide ExtendNuma, BaseCpus, OfNextNode;
    var n := |npus| - 1;
    var before := PlanPools(d, node, numa, npus[..n]);
    var base := BaseCpus(d, npus[n]);
    if i < n {
      PlanInCpuset(d, node, numa, npus[..n], i, c);
    } else {
      ExtendIs(before.numa, node, d.allowed, base, c);
      if c in base { BaseAllowed(d, npus[n], c); }
    }
  }

  function CountEqual(pools: seq<seq<int>>, p: seq<int>, n: nat): nat
    requires n <= |pools|
  {
    if n == 0 then 0 else CountEqual(pools, p, n - 1) + if pools[n - 1] == p then 1 else 0
  }

  lemma {:induction false} CountMonotone(pools: seq<seq<int>>, p: seq<int>, m: nat, n: nat)
    requires m <= n <= |pools|
    ensures CountEqual(pools, p, m) <= CountEqual(pools, p, n)
    decreases n
  {
    if m < n { CountMonotone(pools, p, m, n - 1); }
  }

  lemma InCount(pools: seq<seq<int>>, i: nat)
    requires i < |pools|
    ensures CountEqual(pools, pools[i], i) < CountEqual(pools, pools[i], |pools|)
  {
    CountMonotone(pools, pools[i], i + 1, |pools|);
  }

  // ---------------------------------------------------------------- dividing a pool

  function CutOf(n: nat, g: nat, i: nat): nat
    requires g > 0
  {
    i * (n / g)
  }

  function EndOf(n: nat, g: nat, i: nat): nat
    requires i < g
  {
    if i < g - 1 then CutOf(n, g, i + 1) else n
  }

  lemma CutInside(n: nat, g: nat, i: nat)
    requires i < g
    ensures CutOf(n, g, i) <= EndOf(n, g, i) <= n
  {
    assert n == g * (n / g) + n % g;
    MulMonotone(i, i + 1, n / g);
    MulMonotone(i + 1, g, n / g);
  }

  lemma CutMonotone(n: nat, g: nat, i: nat, j: nat)
    requires i < j < g
    ensures EndOf(n, g, i) <= CutOf(n, g, j)
  {
    MulMonotone(i + 1, j, n / g);
  }

  /** Part i of a sorted pool shared by g NPUs; the last takes the remainder. */
  function Piece(s: seq<int>, g: nat, i: nat): seq<int>
    requires i < g
  {
    CutInside(|s|, g, i);
    s[CutOf(|s|, g, i)..EndOf(|s|, g, i)]
  }

  /** The parts cover the pool. */
  lemma PiecesCover(s: seq<int>, g: nat, c: int) returns (i: nat)
    requires g > 0 && c in s
    ensures i < g && c in Piece(s, g, i)
  {
    var k :| 0 <= k < |s| && s[k] == c;
    i := 0;
    while i < g - 1 && CutOf(|s|, g, i + 1) <= k
      invariant i < g && CutOf(|s|, g, i) <= k
    {
      i := i + 1;
    }
    CutInside(|s|, g, i);
    assert Piece(s, g, i)[k - CutOf(|s|, g, i)] == c;
  }

  ghost predicate PiecesDisjoint(s: seq<int>, g: nat) {
    forall i: nat, j: nat, c: int | i < j < g && c in Piece(s, g, i) :: c !in Piece(s, g, j)
  }

  /** No repeated CPU sits across a cut. */
  ghost predicate CleanCuts(s: seq<int>, g: nat)
    requires g > 0
  {
    forall i: nat | i < g && 0 < CutOf(|s|, g, i) < |s| :: s[CutOf(|s|, g, i) - 1] != s[CutOf(|s|, g, i)]
  }

  /** The parts of a sorted pool share no CPU if and only if no CPU listed twice sits across a cut. */
  lemma DisjointIffClean(s: seq<int>, g: nat)
    requires Sorted(s) && g > 0
    ensures PiecesDisjoint(s, g) <==> CleanCuts(s, g)
  {
    if CleanCuts(s, g) {
      forall i: nat, j: nat, c: int | i < j < g && c in Piece(s, g, i)
        ensures c !in Piece(s, g, j)
      {
        CleanApart(s, g, i, j, c);
      }
    } else {
      var j: nat :| j < g && 0 < CutOf(|s|, g, j) < |s| && s[CutOf(|s|, g, j) - 1] == s[CutOf(|s|, g, j)];
      DirtyShared(s, g, j);
    }
  }

  lemma CleanApart(s: seq<int>, g: nat, i: nat, j: nat, c: int)
    requires Sorted(s) && i < j < g && CleanCuts(s, g)
    ensures !(c in Piece(s, g, i) && c in Piece(s, g, j))
  {
    CutInside(|s|, g, i);
    CutInside(|s|, g, j);
    CutMonotone(|s|, g, i, j);
    var cut := CutOf(|s|, g, j);
    assert 0 < cut < |s| ==> s[cut - 1] != s[cut];
    hide CutOf, EndOf, CleanCuts;
    assert forall a | 0 <= a < cut < |s| :: s[a] <= s[cut - 1];
    assert forall b | cut <= b < |s| :: s[cut] <= s[b];
  }

  lemma DirtyShared(s: seq<int>, g: nat, j: nat)
    requires j < g && 0 < CutOf(|s|, g, j) < |s| && s[CutOf(|s|, g, j) - 1] == s[CutOf(|s|, g, j)]
    ensures !PiecesDisjoint(s, g)
  {
    var n, cut := |s|, CutOf(|s|, g, j);
    assert j > 0 && n / g > 0;
    assert cut - n / g == CutOf(n, g, j - 1);
    CutInside(n, g, j - 1);
    CutInside(n, g, j);
    var c := s[cut];
    assert Piece(s, g, j - 1)[cut - 1 - CutOf(n, g, j - 1)] == c;
    assert EndOf(n, g, j) > cut by {
      if j < g - 1 { assert CutOf(n, g, j + 1) == cut + n / g; }
    }
    assert Piece(s, g, j)[0] == c;
    var i: nat := j - 1;
    assert c in Piece(s, g, i) && c in Piece(s, g, j);
  }

  /** What NPU number i of the plan ends up with. */
  function FinalPool(pools: seq<seq<int>>, i: nat): seq<int>
    requires i < |pools|
  {
    var g := CountEqual(pools, pools[i], |pools|);
    InCount(pools, i);
    if g == 1 then pools[i] else Piece(Sort(pools[i]), g, CountEqual(pools, pools[i], i))
  }

  /** An NPU's share is part of its pool. */
  lemma ShareInPool(pools: seq<seq<int>>, i: nat, c: int)
    requires i < |pools| && c in FinalPool(pools, i)
    ensures c in pools[i]
  {
    InCount(pools, i);
    var g, k := CountEqual(pools, pools[i], |pools|), CountEqual(pools, pools[i], i);
    hide CountEqual, Piece, Sort;
    if g != 1 {
      PieceInside(Sort(pools[i]), g, k, c);
      SortKeeps(pools[i], c);
    }
  }

  lemma PieceInside(s: seq<int>, g: nat, i: nat, c: int)
    requires i < g && c in Piece(s, g, i)
    ensures c in s
  {
    CutInside(|s|, g, i);
    hide CutOf, EndOf;
  }

  lemma SortKeeps(s: seq<int>, c: int)
    requires c in Sort(s)
    ensures c in s
  {
    hide Sort;
    SortIs(s);
    assert c in multiset(Sort(s));
    assert c in multiset(s);
  }

  // ---------------------------------------------------------------- agreement between processes

  /** A plan exists only if every NPU it considers has an allowed CPU of its own. */
  lemma {:induction false} PlannedHaveCpus(d: DeviceInfo, node: map<int, int>, numa: map<int, seq<int>>, npus: seq<int>)
    requires PlanPools(d, node, numa, npus).Planned?
    ensures forall npu | npu in npus :: BaseCpus(d, npu) != []
    decreases |npus|
  {
    if npus != [] {
      var n := |npus| - 1;
      hide BaseCpus, ExtendNuma;
      assert BaseCpus(d, npus[n]) != [] && PlanPools(d, node, numa, npus[..n]).Planned?;
      hide PlanPools;
      PlannedHaveCpus(d, node, numa, npus[..n]);
      assert npus == npus[..n] + [npus[n]];
    }
  }

  lemma {:induction false} SameCandidates(d: DeviceInfo, d': DeviceInfo, npus: seq<int>)
    requires d' == d.(running := d'.running)
    requires forall npu | npu in Candidates(d, npus) :: BaseCpus(d, npu) != []
    requires forall npu | npu in Candidates(d', npus) :: BaseCpus(d', npu) != []
    ensures Candidates(d, npus) == Candidates(d', npus)
    decreases |npus|
  {
    if npus != [] {
      var n := |npus| - 1;
      assert BaseCpus(d, npus[n]) == BaseCpus(d', npus[n]);
      assert forall npu | npu in Candidates(d, npus[..n]) :: npu in Candidates(d, npus);
      assert forall npu | npu in Candidates(d', npus[..n]) :: npu in Candidates(d', npus);
      SameCandidates(d, d', npus[..n]);
      var last := npus[n];
      assert last in d.running || BaseCpus(d, last) != [] ==> last in Candidates(d, npus);
      assert last in d'.running || BaseCpus(d', last) != [] ==> last in Candidates(d', npus);
    }
  }

  lemma {:induction false} SamePlan(d: DeviceInfo, d': DeviceInfo, node: map<int, int>, numa: map<int, seq<int>>, npus: seq<int>)
    requires d' == d.(running := d'.running)
    ensures PlanPools(d, node, numa, npus) == PlanPools(d', node, numa, npus)
    decreases |npus|
  {
    if npus != [] {
      assert BaseCpus(d, npus[|npus| - 1]) == BaseCpus(d', npus[|npus| - 1]);
      SamePlan(d, d', node, numa, npus[..|npus| - 1]);
    }
  }

  /**
   Two processes on the same machine that see different NPUs, and both find a plan, find the
   same plan for the same NPUs: each NPU gets the same CPUs from either of them.
   */
  lemma ProcessesAgree(d: DeviceInfo, d': DeviceInfo, node: map<int, int>, numa: map<int, seq<int>>)
    requires d' == d.(running := d'.running)
    requires PlanPools(d, node, numa, Candidates(d, d.allLogic)).Planned?
    requires PlanPools(d', node, numa, Candidates(d', d'.allLogic)).Planned?
    ensures Candidates(d, d.allLogic) == Candidates(d', d'.allLogic)
    ensures PlanPools(d, node, numa, Candidates(d, d.allLogic)) == PlanPools(d', node, numa, Candidates(d', d'.allLogic))
  {
    hide PlanPools, Candidates, BaseCpus;
    PlannedHaveCpus(d, node, numa, Candidates(d, d.allLogic));
    PlannedHaveCpus(d', node, numa, Candidates(d', d'.allLogic));
    SameCandidates(d, d', d.allLogic);
    SamePlan(d, d', node, numa, Candidates(d, d.allLogic));
  }

  // ---------------------------------------------------------------- sharing a pool

  /** The shares of all NPUs whose pool is p have no CPU in common. */
  ghost predicate SharersApart(pools: seq<seq<int>>, p: seq<int>) {
    forall i: nat, j: nat, c: int | i < j < |pools| && pools[i] == p && pools[j] == p && c in FinalPool(pools, i) ::
      c !in FinalPool(pools, j)
  }

  lemma {:induction false} SharerAt(pools: seq<seq<int>>, p: seq<int>, n: nat, k: nat) returns (j: nat)
    requires n <= |pools| && k < CountEqual(pools, p, n)
    ensures j < n && pools[j] == p && CountEqual(pools, p, j) == k
    decreases n
  {
    if k < CountEqual(pools, p, n - 1) {
      j := SharerAt(pools, p, n - 1, k);
    } else {
      j := n - 1;
    }
  }

  lemma ShareIs(pools: seq<seq<int>>, i: nat)
    requires i < |pools|
    ensures var p, g := pools[i], CountEqual(pools, pools[i], |pools|);
            CountEqual(pools, p, i) < g && (g > 1 ==> FinalPool(pools, i) == Piece(Sort(p), g, CountEqual(pools, p, i)))
  {
    InCount(pools, i);
  }

  lemma PiecesThenSharers(pools: seq<seq<int>>, p: seq<int>, i: nat, j: nat, c: int)
    requires CountEqual(pools, p, |pools|) > 1 && PiecesDisjoint(Sort(p), CountEqual(pools, p, |pools|))
    requires i < j < |pools| && pools[i] == p && pools[j] == p
    ensures !(c in FinalPool(pools, i) && c in FinalPool(pools, j))
  {
    hide Sort, Piece, FinalPool, PiecesDisjoint;
    assert CountEqual(pools, p, i) < CountEqual(pools, p, i + 1);
    hide CountEqual;
    ShareIs(pools, i);
    ShareIs(pools, j);
    CountMonotone(pools, p, i + 1, j);
    PairDisjoint(Sort(p), CountEqual(pools, p, |pools|), CountEqual(pools, p, i), CountEqual(pools, p, j), c);
  }

  lemma PairDisjoint(s: seq<int>, g: nat, a: nat, b: nat, c: int)
    requires PiecesDisjoint(s, g) && a < b < g
    ensures !(c in Piece(s, g, a) && c in Piece(s, g, b))
  {
    hide Piece;
  }

  lemma SharersThenPieces(pools: seq<seq<int>>, p: seq<int>, a: nat, b: nat, c: int)
    requires CountEqual(pools, p, |pools|) > 1 && SharersApart(pools, p) && a < b < CountEqual(pools, p, |pools|)
    ensures var s, g := Sort(p), CountEqual(pools, p, |pools|); !(c in Piece(s, g, a) && c in Piece(s, g, b))
  {
    hide Sort, Piece, FinalPool;
    var i := SharerAt(pools, p, |pools|, a);
    var j := SharerAt(pools, p, |pools|, b);
    ShareIs(pools, i);
    ShareIs(pools, j);
    if j <= i { CountMonotone(pools, p, j, i); }
  }

  /** Sharers' shares are the parts of the pool, each once. */
  lemma ApartAsPieces(pools: seq<seq<int>>, p: seq<int>)
    requires CountEqual(pools, p, |pools|) > 1
    ensures SharersApart(pools, p) <==> PiecesDisjoint(Sort(p), CountEqual(pools, p, |pools|))
  {
    hide Sort, Piece, FinalPool, CountEqual;
    var s, g := Sort(p), CountEqual(pools, p, |pools|);
    if PiecesDisjoint(s, g) {
      forall i: nat, j: nat, c: int | i < j < |pools| && pools[i] == p && pools[j] == p && c in FinalPool(pools, i)
        ensures c !in FinalPool(pools, j)
      {
        PiecesThenSharers(pools, p, i, j, c);
      }
    }
    if SharersApart(pools, p) {
      forall a: nat, b: nat, c: int | a < b < g && c in Piece(s, g, a)
        ensures c !in Piece(s, g, b)
      {
        SharersThenPieces(pools, p, a, b, c);
      }
    }
  }

  lemma NoPairToShare(pools: seq<seq<int>>, p: seq<int>)
    requires CountEqual(pools, p, |pools|) == 1
    ensures SharersApart(pools, p) && CleanCuts(Sort(p), 1)
  {
    hide Sort;
    forall i: nat, j: nat | i < j < |pools| && pools[i] == p
      ensures pools[j] != p
    {
      CountMonotone(pools, p, i + 1, j);
      CountMonotone(pools, p, j + 1, |pools|);
    }
  }

  /** NPUs with one pool get disjoint shares if and only if no CPU listed twice sits across a cut of the sorted pool. */
  lemma SharersApartIff(pools: seq<seq<int>>, p: seq<int>)
    requires CountEqual(pools, p, |pools|) > 0
    ensures SharersApart(pools, p) <==> CleanCuts(Sort(p), CountEqual(pools, p, |pools|))
  {
    hide Sort, CleanCuts, SharersApart, PiecesDisjoint;
    if CountEqual(pools, p, |pools|) == 1 {
      NoPairToShare(pools, p);
    } else {
      ApartAsPieces(pools, p);
      SortIs(p);
      DisjointIffClean(Sort(p), CountEqual(pools, p, |pools|));
    }
  }

  /** Together they get the whole pool. */
  lemma SharersCover(pools: seq<seq<int>>, i: nat, c: int) returns (j: nat)
    requires i < |pools| && c in pools[i]
    ensures j < |pools| && pools[j] == pools[i] && c in FinalPool(pools, j)
  {
    var p := pools[i];
    var g := CountEqual(pools, p, |pools|);
    InCount(pools, i);
    if g == 1 {
      j := i;
    } else {
      SortIs(p);
      assert c in multiset(p) && c in Sort(p) by { assert c in multiset(Sort(p)); }
      hide Sort, Piece;
      var k := PiecesCover(Sort(p), g, c);
      j := SharerAt(pools, p, |pools|, k);
    }
  }

  /** CPUs on one node make an extended pool, which lists no CPU twice. */
  lemma {:induction false} OneNodePool(d: DeviceInfo, node: map<int, int>, numa: map<int, seq<int>>, npus: seq<int>, i: nat)
    requires PlanPools(d, node, numa, npus).Planned? && i < |npus|
    ensures var base := BaseCpus(d, npus[i]);
            KnownNodes(node, base) && (OneNode(node, base) ==> StrictlySorted(PlanPools(d, node, numa, npus).pools[i]))
    decreases |npus|
  {
    hide BaseCpus, Filter;
    var n := |npus| - 1;
    if i < n { OneNodePool(d, node, numa, npus[..n], i); }
  }

  lemma StrictlySortedIsClean(s: seq<int>, g: nat)
    requires StrictlySorted(s) && g > 0
    ensures Sort(s) == s && CleanCuts(s, g)
  {
    assert Sorted(s);
    SortOfSorted(s);
    hide CutOf;
  }

  /** NPUs sharing the pool of CPUs on one node get disjoint shares, unconditionally. */
  lemma OneNodeApart(d: DeviceInfo, node: map<int, int>, numa: map<int, seq<int>>, npus: seq<int>, i: nat)
    requires PlanPools(d, node, numa, npus).Planned? && i < |npus|
    requires KnownNodes(node, BaseCpus(d, npus[i])) && OneNode(node, BaseCpus(d, npus[i]))
    ensures var pools := PlanPools(d, node, numa, npus).pools; SharersApart(pools, pools[i])
  {
    var pools := PlanPools(d, node, numa, npus).pools;
    OneNodePool(d, node, numa, npus, i);
    InCount(pools, i);
    StrictlySortedIsClean(pools[i], CountEqual(pools, pools[i], |pools|));
    SharersApartIff(pools, pools[i]);
  }

  /** The process finds a plan that covers every NPU it sees. */
  ghost predicate Plans(d: DeviceInfo, node: map<int, int>, numa: map<int, seq<int>>) {
    && PlanPools(d, node, numa, Candidates(d, d.allLogic)).Planned?
    && forall npu | npu in d.running :: npu in Candidates(d, d.allLogic)
  }

  ghost function AllPools(d: DeviceInfo, node: map<int, int>, numa: map<int, seq<int>>): (pools: seq<seq<int>>)
    requires Plans(d, node, numa)
    ensures |pools| == |Candidates(d, d.allLogic)|
  {
    PlanPools(d, node, numa, Candidates(d, d.allLogic)).pools
  }

  /** The NPU's own allowed CPUs lie on one node. */
  ghost predicate OnOneNode(d: DeviceInfo, node: map<int, int>, npu: int) {
    KnownNodes(node, BaseCpus(d, npu)) && OneNode(node, BaseCpus(d, npu))
  }

  /** Every CPU of the pool is in some sharer's share. */
  ghost predicate SharersCoverPool(pools: seq<seq<int>>, p: seq<int>) {
    forall c | c in p :: exists j :: 0 <= j < |pools| && pools[j] == p && c in FinalPool(pools, j)
  }

  /**
   Two processes that see different NPUs and both find a plan: the NPUs with one pool, seen
   by either, get shares that cover the pool; and the shares are disjoint if and only if no CPU
   listed twice sits across a cut, which is always so when the CPUs lie on one node.
   */
  lemma SharingAcrossProcesses(d: DeviceInfo, d': DeviceInfo, node: map<int, int>, numa: map<int, seq<int>>, i: nat)
    requires d' == d.(running := d'.running) && Plans(d, node, numa) && Plans(d', node, numa)
    requires i < |Candidates(d, d.allLogic)|
    ensures Candidates(d, d.allLogic) == Candidates(d', d'.allLogic) && AllPools(d, node, numa) == AllPools(d', node, numa)
    ensures var pools := AllPools(d, node, numa); SharersCoverPool(pools, pools[i])
    ensures var pools := AllPools(d, node, numa);
            CountEqual(pools, pools[i], |pools|) > 0 &&
            (SharersApart(pools, pools[i]) <==> CleanCuts(Sort(pools[i]), CountEqual(pools, pools[i], |pools|)))
    ensures var pools := AllPools(d, node, numa);
            OnOneNode(d, node, Candidates(d, d.allLogic)[i]) ==> SharersApart(pools, pools[i])
  {
    hide PlanPools, Candidates, BaseCpus, SharersApart, CleanCuts, Sort, FinalPool;
    ProcessesAgree(d, d', node, numa);
    var npus, pools := Candidates(d, d.allLogic), AllPools(d, node, numa);
    InCount(pools, i);
    SharersApartIff(pools, pools[i]);
    if OnOneNode(d, node, npus[i]) { OneNodeApart(d, node, numa, npus, i); }
    forall c | c in pools[i]
      ensures exists j :: 0 <= j < |pools| && pools[j] == pools[i] && c in FinalPool(pools, j)
    {
      var j := SharersCover(pools, i, c);
    }
  }

  lemma {:induction false} FilterAll(s: seq<int>, allowed: seq<int>)
    requires forall i | 0 <= i < |s| :: s[i] in allowed
    ensures Filter(s, allowed) == s
    decreases |s|
  {
    if s != [] {
      FilterAll(s[..|s| - 1], allowed);
      assert s == s[..|s| - 1] + [s[|s| - 1]];
    }
  }

  /** An affinity list that names CPU 4 twice. */
  function Repeating(): (s: seq<int>)
    ensures |s| == 10 && forall i | 0 <= i < 10 :: s[i] == if i < 5 then i else i - 1
  {
    seq(10, i => if i < 5 then i else i - 1)
  }

  /** Two NPUs with that list, in a cpuset of CPUs 0 to 8. */
  function RepeatingMachine(): DeviceInfo {
    DeviceInfo(seq(9, i => i), [0, 1], [0, 1], map[0 := Repeating(), 1 := Repeating()])
  }

  ghost predicate TwoNodes(node: map<int, int>) {
    forall c | 0 <= c < 9 :: c in node && node[c] == if c < 5 then 0 else 1
  }

  lemma RepeatingBase(node: map<int, int>, numa: map<int, seq<int>>)
    requires TwoNodes(node)
    ensures var d := RepeatingMachine();
            && BaseCpus(d, 0) == Repeating() && BaseCpus(d, 1) == Repeating()
            && ExtendNuma(numa, node, d.allowed, Repeating()) == Extended(numa, Repeating())
  {
    var d, list := RepeatingMachine(), Repeating();
    forall i | 0 <= i < |list|
      ensures list[i] in d.allowed && list[i] in node
    {
      assert d.allowed[list[i]] == list[i];
    }
    FilterAll(list, d.allowed);
    hide Filter;
    assert node[list[9]] != node[list[0]];
  }

  lemma RepeatingPlan(node: map<int, int>, numa: map<int, seq<int>>)
    requires TwoNodes(node)
    ensures var d := RepeatingMachine();
            && Candidates(d, [0, 1]) == [0, 1]
            && PlanPools(d, node, numa, [0, 1]) == Planned(numa, [Repeating(), Repeating()])
  {
    var d, list := RepeatingMachine(), Repeating();
    RepeatingBase(node, numa);
    hide BaseCpus, ExtendNuma, Repeating, Candidates, PlanPools;
    PlanSnoc(d, node, numa, [], 0);
    PlanSnoc(d, node, numa, [0], 1);
    assert [] + [0] == [0] && [0] + [1] == [0, 1] && [] + [list] == [list] && [list] + [list] == [list, list];
  }

  lemma PlanSnoc(d: DeviceInfo, node: map<int, int>, numa: map<int, seq<int>>, npus: seq<int>, npu: int)
    ensures Candidates(d, []) == [] && PlanPools(d, node, numa, []) == Planned(numa, [])
    ensures npu in d.running ==> Candidates(d, npus + [npu]) == Candidates(d, npus) + [npu]
    ensures var p := PlanPools(d, node, numa, npus);
            p.Planned? && BaseCpus(d, npu) != [] ==>
              var e := ExtendNuma(p.numa, node, d.allowed, BaseCpus(d, npu));
              e.Extended? ==> PlanPools(d, node, numa, npus + [npu]) == Planned(e.numa, p.pools + [e.cpus])
  {
    hide BaseCpus, ExtendNuma;
    assert (npus + [npu])[..|npus|] == npus;
  }

  lemma RepeatingShares()
    ensures var pools := [Repeating(), Repeating()];
            && |FinalPool(pools, 0)| == |FinalPool(pools, 1)| == MIN_CPUS_PER_NPU
            && 4 in FinalPool(pools, 0) && 4 in FinalPool(pools, 1)
  {
    var list := Repeating();
    var pools := [list, list];
    SortOfSorted(list);
    hide Sort, Repeating;
    assert CountEqual(pools, list, 0) == 0 && CountEqual(pools, list, 1) == 1 && CountEqual(pools, list, 2) == 2;
    hide CountEqual;
    assert Piece(list, 2, 0) == list[0..5] && Piece(list, 2, 1) == list[5..10];
    hide Piece;
    assert list[0..5][4] == list[4] == 4 && list[5..10][0] == list[5] == 4;
  }

  /** It does happen: with five CPUs each, both NPUs are given CPU 4. */
  lemma RepeatedCpuShared(node: map<int, int>, numa: map<int, seq<int>>)
    requires TwoNodes(node)
    ensures var d := RepeatingMachine();
            && Plans(d, node, numa) && |AllPools(d, node, numa)| == 2
            && var pools := AllPools(d, node, numa);
               && |FinalPool(pools, 0)| == |FinalPool(pools, 1)| == MIN_CPUS_PER_NPU
               && 4 in FinalPool(pools, 0) && 4 in FinalPool(pools, 1)
  {
    RepeatingPlan(node, numa);
    RepeatingShares();
    hide PlanPools, Candidates, FinalPool, Repeating;
  }

  // ---------------------------------------------------------------- the allocator

  /** The NPUs of the first n whose pool is p. */
  function Members(npus: seq<int>, pools: seq<seq<int>>, p: seq<int>, n: nat): (ms: seq<int>)
    requires n <= |npus| && n <= |pools|
    ensures |ms| == CountEqual(pools, p, n)
  {
    if n == 0 then [] else Members(npus, pools, p, n - 1) + if pools[n - 1] == p then [npus[n - 1]] else []
  }

  /** An NPU's place among those that share its pool is the number of sharers before it. */
  lemma {:induction false} MemberAt(npus: seq<int>, pools: seq<seq<int>>, j: nat, n: nat)
    requires j < n <= |npus| && n <= |pools|
    ensures CountEqual(pools, pools[j], j) < CountEqual(pools, pools[j], n)
    ensures Members(npus, pools, pools[j], n)[CountEqual(pools, pools[j], j)] == npus[j]
    decreases n
  {
    if j < n - 1 { MemberAt(npus, pools, j, n - 1); }
  }

  lemma {:induction false} MemberIs(npus: seq<int>, pools: seq<seq<int>>, p: seq<int>, n: nat, k: nat) returns (j: nat)
    requires n <= |npus| && n <= |pools| && k < |Members(npus, pools, p, n)|
    ensures j < n && pools[j] == p && npus[j] == Members(npus, pools, p, n)[k]
    ensures CountEqual(pools, p, j) == k
    decreases n
  {
    if k < |Members(npus, pools, p, n - 1)| {
      j := MemberIs(npus, pools, p, n - 1, k);
    } else {
      j := n - 1;
    }
  }

  /** The sorted pool is cut into equal parts for its sharers, the last taking the remainder. */
  method AverageDistribute(pool: seq<int>, sharers: seq<int>) returns (result: map<int, seq<int>>)
    requires sharers != [] && Distinct(sharers)
    ensures forall npu :: npu in result <==> npu in sharers
    ensures forall i | 0 <= i < |sharers| :: sharers[i] in result && result[sharers[i]] == Piece(Sort(pool), |sharers|, i)
  {
    result := map[];
    var cpus := Sort(pool);
    var g := |sharers|;
    for i := 0 to g
      invariant forall npu :: npu in result <==> npu in sharers[..i]
      invariant forall k | 0 <= k < i :: sharers[k] in result && result[sharers[k]] == Piece(cpus, g, k)
    {
      CutInside(|cpus|, g, i);
      var start := i * (|cpus| / g);
      var end := if i < g - 1 then (i + 1) * (|cpus| / g) else |cpus|;
      assert sharers[..i + 1] == sharers[..i] + [sharers[i]];
      result := result[sharers[i] := cpus[start..end]];
    }
    assert sharers[..g] == sharers;
  }

  /** Every NPU with one of the given pools has its final share, and nobody else has any. */
  ghost predicate Shared(final: map<int, seq<int>>, npus: seq<int>, pools: seq<seq<int>>, done: set<seq<int>>)
    requires |npus| == |pools|
  {
    && (forall j | 0 <= j < |npus| && pools[j] in done :: npus[j] in final && final[npus[j]] == FinalPool(pools, j))
    && (forall npu | npu in final :: exists j :: 0 <= j < |npus| && npus[j] == npu && pools[j] in done)
  }

  /** The shares of all NPUs whose pool is p. */
  ghost predicate IsShare(npus: seq<int>, pools: seq<seq<int>>, p: seq<int>, part: map<int, seq<int>>)
    requires |npus| == |pools|
  {
    var ms := Members(npus, pools, p, |npus|);
    && (forall npu :: npu in part <==> npu in ms)
    && forall k | 0 <= k < |ms| :: ms[k] in part && part[ms[k]] == if |ms| == 1 then p else Piece(Sort(p), |ms|, k)
  }

  ghost predicate SameLists(a: seq<seq<int>>, b: seq<seq<int>>) { forall p :: p in a <==> p in b }

  lemma KeyInList(keys: seq<seq<int>>, list: seq<seq<int>>, k: nat)
    requires SameLists(keys, list) && k < |keys|
    ensures keys[k] in list
  {
    assert keys[k] in keys;
  }

  lemma SharedByAll(final: map<int, seq<int>>, npus: seq<int>, pools: seq<seq<int>>, done: set<seq<int>>, keys: seq<seq<int>>)
    requires |npus| == |pools| && Shared(final, npus, pools, done)
    requires SameLists(keys, pools) && forall i | 0 <= i < |keys| :: keys[i] in done
    ensures forall j | 0 <= j < |npus| :: npus[j] in final && final[npus[j]] == FinalPool(pools, j)
    ensures forall npu :: npu in final <==> npu in npus
  {
    hide FinalPool;
    forall j | 0 <= j < |pools|
      ensures pools[j] in done
    {
      assert pools[j] in pools;
      var i :| 0 <= i < |keys| && keys[i] == pools[j];
    }
  }

  lemma ShareOf(npus: seq<int>, pools: seq<seq<int>>, p: seq<int>, part: map<int, seq<int>>, j: nat)
    requires |npus| == |pools| && IsShare(npus, pools, p, part) && j < |npus| && pools[j] == p
    ensures npus[j] in part && part[npus[j]] == FinalPool(pools, j)
  {
    MemberAt(npus, pools, j, |npus|);
    hide Piece, Sort, Members, CountEqual;
    assert Members(npus, pools, p, |npus|)[CountEqual(pools, p, j)] == npus[j];
  }

  lemma NoShareOf(npus: seq<int>, pools: seq<seq<int>>, p: seq<int>, part: map<int, seq<int>>, j: nat)
    requires |npus| == |pools| && Distinct(npus) && IsShare(npus, pools, p, part) && j < |npus| && pools[j] != p
    ensures npus[j] !in part
  {
    hide Piece, Sort, Members, CountEqual;
    var ms := Members(npus, pools, p, |npus|);
    if npus[j] in part {
      var k :| 0 <= k < |ms| && ms[k] == npus[j];
      var i := MemberIs(npus, pools, p, |npus|, k);
      assert false;
    }
  }

  lemma ShareOne(final: map<int, seq<int>>, npus: seq<int>, pools: seq<seq<int>>, done: set<seq<int>>, p: seq<int>, part: map<int, seq<int>>)
    requires |npus| == |pools| && Distinct(npus) && Shared(final, npus, pools, done)
    requires IsShare(npus, pools, p, part)
    ensures Shared(final + part, npus, pools, done + {p})
  {
    var ms := Members(npus, pools, p, |npus|);
    var final' := final + part;
    forall j | 0 <= j < |npus| && pools[j] in done + {p}
      ensures npus[j] in final' && final'[npus[j]] == FinalPool(pools, j)
    {
      if pools[j] == p {
        ShareOf(npus, pools, p, part, j);
      } else {
        NoShareOf(npus, pools, p, part, j);
      }
    }
    hide FinalPool, Piece, Sort, Members, CountEqual;
    forall npu | npu in final'
      ensures exists j :: 0 <= j < |npus| && npus[j] == npu && pools[j] in done + {p}
    {
      if npu in part {
        var k :| 0 <= k < |ms| && ms[k] == npu;
        var j := MemberIs(npus, pools, p, |npus|, k);
      }
    }
  }

  lemma MembersDistinct(npus: seq<int>, pools: seq<seq<int>>, p: seq<int>)
    requires |npus| == |pools| && Distinct(npus)
    ensures Distinct(Members(npus, pools, p, |npus|))
  {
    var ms := Members(npus, pools, p, |npus|);
    forall a, b | 0 <= a < b < |ms|
      ensures ms[a] != ms[b]
    {
      var i := MemberIs(npus, pools, p, |npus|, a);
      var j := MemberIs(npus, pools, p, |npus|, b);
    }
  }

  function SlicesOf(cpus: seq<int>, total: nat, npus: seq<int>): map<int, seq<int>> {
    map npu | npu in npus && 0 <= npu < total :: SliceFor(cpus, total, npu)
  }

  /** The roles of these NPUs have been handed their CPUs. */
  ghost predicate HandedOut(pools: map<int, seq<int>>, main: map<int, seq<int>>, acl: map<int, seq<int>>, rel: map<int, seq<int>>, npus: set<int>) {
    && main.Keys == npus && acl.Keys == npus && rel.Keys == npus && npus <= pools.Keys
    && forall npu | npu in npus :: Serves(pools[npu], main[npu], acl[npu], rel[npu])
  }

  lemma HandNext(pools: map<int, seq<int>>, main: map<int, seq<int>>, acl: map<int, seq<int>>, rel: map<int, seq<int>>, npus: set<int>, npu: int)
    requires HandedOut(pools, main, acl, rel, npus) && npu in pools && npu !in npus && |pools[npu]| >= MIN_CPUS_PER_NPU
    ensures var pool := pools[npu];
            var n := |pool|;
            HandedOut(pools, main[npu := pool[2..n - 2]], acl[npu := [pool[n - 2]]], rel[npu := [pool[n - 1]]], npus + {npu})
  {
    RoleRanges(pools[npu]);
    hide Serves;
  }

  class CpuAlloc {
    const device: DeviceInfo
    const node: map<int, int>
    var numa: map<int, seq<int>>
    var pools: map<int, seq<int>>
    var main: map<int, seq<int>>
    var acl: map<int, seq<int>>
    var rel: map<int, seq<int>>

    constructor (device: DeviceInfo, node: map<int, int>, numa: map<int, seq<int>>)
      ensures this.device == device && this.node == node && this.numa == numa
      ensures pools == main == acl == rel == map[]
    {
      this.device, this.node, this.numa := device, node, numa;
      pools, main, acl, rel := map[], map[], map[], map[];
    }

    /** Slices by global NPU number; a process takes the slices of the NPUs it sees. */
    method BuildGlobalSlice() returns (status: Status)
      requires pools == map[]
      modifies this`pools
      ensures device.running == [] || device.allowed == [] ==> status == Ok && pools == map[]
      ensures device.running != [] && device.allowed != [] ==>
                var cpus := SortedSet(device.allowed);
                var total := TotalNpus(device);
                && total > 0
                && (status == Failed(InsufficientCpus) <==> |cpus| / total < MIN_CPUS_PER_NPU)
                && (status == Failed(InvalidNpu) <==> |cpus| / total >= MIN_CPUS_PER_NPU && !InRange(device.running, total))
                && (status.Ok? ==> pools == SlicesOf(cpus, total, device.running))
                && (Distinct(device.running) ==> (status.Ok? <==> Slices(device)))
    {
      hide StartOf, TakeOf, SliceFor;
      if device.running == [] { return Ok; }
      var cpus := SortedSet(device.allowed);
      if |cpus| == 0 {
        assert forall c :: c !in device.allowed;
        return Ok;
      }
      var total := TotalNpus(device);
      assert total > 0 by { if device.affinity != map[] { assert device.affinity.Keys != {}; } }
      if |cpus| / total < MIN_CPUS_PER_NPU {
        assert device.allowed != [];
        return Failed(InsufficientCpus);
      }
      status := SliceEach(cpus, total);
    }

    method SliceEach(cpus: seq<int>, total: nat) returns (status: Status)
      requires total > 0 && pools == map[]
      modifies this`pools
      ensures status.Ok? || status == Failed(InvalidNpu)
      ensures status.Ok? <==> InRange(device.running, total)
      ensures status.Ok? ==> pools == SlicesOf(cpus, total, device.running)
    {
      var base := |cpus| / total;
      var extra := |cpus| % total;
      for k := 0 to |device.running|
        invariant InRange(device.running[..k], total)
        invariant pools == SlicesOf(cpus, total, device.running[..k])
      {
        var npu := device.running[k];
        assert npu in device.running;
        if npu < 0 || npu >= total { return Failed(InvalidNpu); }
        SliceInside(|cpus|, total, npu);
        var start := npu * base + if npu < extra then npu else extra;
        var take := base + if npu < extra then 1 else 0;
        assert cpus[start..start + take] == SliceFor(cpus, total, npu);
        hide SliceFor;
        assert device.running[..k + 1] == device.running[..k] + [npu];
        pools := pools[npu := cpus[start..start + take]];
      }
      assert device.running[..|device.running|] == device.running;
      status := Ok;
    }

    /** Pools by affinity: planned for all NPUs concerned, divided among sharers, then cut down to those seen. */
    method BuildTopo() returns (status: Status)
      requires Distinct(device.allLogic)
      modifies this`pools, this`numa
      ensures var npus := Candidates(device, device.allLogic);
              var plan := PlanPools(device, node, old(numa), npus);
              && (plan.NoPlan? ==> status == Failed(plan.reason))
              && (status.Ok? <==> plan.Planned? && forall npu | npu in device.running :: npu in npus)
              && (status.Ok? ==> forall npu :: npu in pools <==> npu in device.running)
              && (status.Ok? ==> forall j | 0 <= j < |npus| && npus[j] in device.running ::
                    npus[j] in pools && pools[npus[j]] == FinalPool(plan.pools, j))
    {
      hide PlanPools, FinalPool, Candidates;
      var npus := Choose();
      CandidatesDistinct(device, device.allLogic);
      var list;
      status, list := PlanAll(npus);
      if !status.Ok? { return; }
      var final := Divide(npus, list);
      for k := 0 to |device.running|
        invariant forall i | 0 <= i < k :: device.running[i] in final
      {
        assert device.running[k] in device.running;
        if device.running[k] !in final {
          if forall npu | npu in device.running :: npu in npus { assert false; }
          return Failed(UnknownNpu);
        }
      }
      pools := map npu | npu in device.running :: final[npu];
      status := Ok;
    }

    method PlanAll(npus: seq<int>) returns (status: Status, list: seq<seq<int>>)
      modifies this`numa
      ensures var plan := PlanPools(device, node, old(numa), npus);
              && (status.Ok? <==> plan.Planned?)
              && (plan.Planned? ==> list == plan.pools && numa == plan.numa)
              && (plan.NoPlan? ==> status == Failed(plan.reason))
    {
      hide ExtendNuma, BaseCpus;
      list := [];
      for n := 0 to |npus|
        invariant PlanPools(device, node, old(numa), npus[..n]) == Planned(numa, list)
      {
        assert npus[..n + 1][..n] == npus[..n];
        var base := BaseCpus(device, npus[n]);
        if base == [] {
          PlanStops(device, node, old(numa), npus, n + 1);
          return Failed(AffinityConflict), list;
        }
        match ExtendNuma(numa, node, device.allowed, base) {
          case UnknownNode =>
            PlanStops(device, node, old(numa), npus, n + 1);
            return Failed(UnknownCpu), list;
          case Extended(numa', cpus) =>
            numa, list := numa', list + [cpus];
        }
      }
      assert npus[..|npus|] == npus;
      status := Ok;
    }

    method Choose() returns (npus: seq<int>)
      ensures npus == Candidates(device, device.allLogic)
    {
      npus := [];
      for n := 0 to |device.allLogic|
        invariant npus == Candidates(device, device.allLogic[..n])
      {
        var npu := device.allLogic[n];
        assert device.allLogic[..n + 1][..n] == device.allLogic[..n];
        if npu in device.running || BaseCpus(device, npu) != [] { npus := npus + [npu]; }
      }
      assert device.allLogic[..|device.allLogic|] == device.allLogic;
    }

    /** Group the NPUs by pool and give each group's members their shares. */
    method Divide(npus: seq<int>, list: seq<seq<int>>) returns (final: map<int, seq<int>>)
      requires |npus| == |list| && Distinct(npus)
      ensures forall j | 0 <= j < |npus| :: npus[j] in final && final[npus[j]] == FinalPool(list, j)
      ensures forall npu :: npu in final <==> npu in npus
    {
      final := map[];
      var keys := Keys(list);
      ghost var done: set<seq<int>> := {};
      assert Shared(final, npus, list, done);
      hide Shared, FinalPool, IsShare, Distinct, SameLists;
      for k := 0 to |keys|
        invariant forall i | 0 <= i < k :: keys[i] in done
        invariant Shared(final, npus, list, done)
      {
        KeyInList(keys, list, k);
        var part := Share(npus, list, keys[k]);
        ShareOne(final, npus, list, done, keys[k], part);
        done := done + {keys[k]};
        final := final + part;
      }
      SharedByAll(final, npus, list, done, keys);
    }

    /** The distinct pools. */
    method Keys(list: seq<seq<int>>) returns (keys: seq<seq<int>>)
      ensures SameLists(keys, list)
    {
      keys := [];
      for n := 0 to |list|
        invariant forall p :: p in keys <==> p in list[..n]
      {
        assert list[..n + 1] == list[..n] + [list[n]];
        if list[n] !in keys { keys := keys + [list[n]]; }
      }
      assert list[..|list|] == list;
    }

    /** The shares of the NPUs whose pool is p. */
    method Share(npus: seq<int>, list: seq<seq<int>>, p: seq<int>) returns (part: map<int, seq<int>>)
      requires |npus| == |list| && Distinct(npus) && p in list
      ensures IsShare(npus, list, p, part)
    {
      var ms := Gather(npus, list, p);
      assert ms != [] by { var j :| 0 <= j < |list| && list[j] == p; MemberAt(npus, list, j, |npus|); }
      MembersDistinct(npus, list, p);
      hide Piece, Sort, Members;
      if |ms| == 1 {
        part := map[ms[0] := p];
      } else {
        part := AverageDistribute(p, ms);
      }
    }

    method Gather(npus: seq<int>, list: seq<seq<int>>, p: seq<int>) returns (ms: seq<int>)
      requires |npus| == |list|
      ensures ms == Members(npus, list, p, |npus|)
    {
      ms := [];
      for n := 0 to |npus|
        invariant ms == Members(npus, list, p, n)
      {
        if list[n] == p { ms := ms + [npus[n]]; }
      }
    }

    method Hand(npu: int, ghost done: set<int>)
      requires HandedOut(pools, main, acl, rel, done) && npu in pools && npu !in done && |pools[npu]| >= MIN_CPUS_PER_NPU
      modifies this`main, this`acl, this`rel
      ensures HandedOut(pools, main, acl, rel, done + {npu})
    {
      HandNext(pools, main, acl, rel, done, npu);
      hide HandedOut;
      var pool := pools[npu];
      var n := |pool|;
      main := main[npu := pool[2..n - 2]];
      acl := acl[npu := [pool[n - 2]]];
      rel := rel[npu := [pool[n - 1]]];
    }

    /** Each pool is handed out to its roles; a pool that is too small fails the whole allocation. */
    method Allocate() returns (status: Status)
      requires main == acl == rel == map[]
      modifies this`main, this`acl, this`rel
      ensures status.Ok? <==> forall npu | npu in pools :: |pools[npu]| >= MIN_CPUS_PER_NPU
      ensures status.Ok? ==> HandedOut(pools, main, acl, rel, pools.Keys)
    {
      var todo := pools.Keys;
      ghost var done: set<int> := {};
      assert HandedOut(pools, main, acl, rel, done);
      hide HandedOut;
      while todo != {}
        invariant done + todo == pools.Keys && done !! todo && HandedOut(pools, main, acl, rel, done)
        decreases todo
      {
        NonEmpty(todo);
        var npu :| npu in todo;
        if |pools[npu]| < MIN_CPUS_PER_NPU { return Failed(InsufficientCpus); }
        Hand(npu, done);
        todo, done := todo - {npu}, done + {npu};
      }
      assert done == pools.Keys;
      HandedEnough(pools, main, acl, rel, done);
      status := Ok;
    }
  }

  lemma HandedEnough(pools: map<int, seq<int>>, main: map<int, seq<int>>, acl: map<int, seq<int>>, rel: map<int, seq<int>>, npus: set<int>)
    requires HandedOut(pools, main, acl, rel, npus)
    ensures forall npu | npu in npus :: npu in pools && |pools[npu]| >= MIN_CPUS_PER_NPU
  {
  }

  lemma NonEmpty(s: set<int>)
    requires s != {}
    ensures exists x :: x in s
  {
    if !exists x :: x in s { assert false; }
  }

  /** A plan that fails on a prefix fails the same way on the whole. */
  lemma {:induction false} PlanStops(d: DeviceInfo, node: map<int, int>, numa: map<int, seq<int>>, npus: seq<int>, n: nat)
    requires n <= |npus| && PlanPools(d, node, numa, npus[..n]).NoPlan?
    ensures PlanPools(d, node, numa, npus) == PlanPools(d, node, numa, npus[..n])
    decreases |npus|
  {
    if n == |npus| {
      assert npus[..n] == npus;
    } else {
      assert npus[..|npus| - 1][..n] == npus[..n];
      PlanStops(d, node, numa, npus[..|npus| - 1], n);
    }
  }

  lemma {:induction false} CandidatesDistinct(d: DeviceInfo, npus: seq<int>)
    requires Distinct(npus)
    ensures Distinct(Candidates(d, npus))
    ensures forall npu | npu in Candidates(d, npus) :: npu in npus
    decreases |npus|
  {
    if npus != [] {
      var n := |npus| - 1;
      CandidatesDistinct(d, npus[..n]);
      assert npus == npus[..n] + [npus[n]] && npus[n] !in npus[..n];
    }
  }
}
