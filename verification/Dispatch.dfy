/**
 The host side of the expert-parallel prefill dispatch.

 Every rank s holds a flat list of expert choices, -1 for none; expert e lives on rank
 e / L.  Each rank numbers its own choices per expert, and each destination turns the
 counts it receives into prefix sums.  Together the two loops assign every choice a slot on
 its destination; that the slots neither collide nor leave holes is proved across all ranks.
 */
module Dispatch {
  import opened Basics

  // ---------------------------------------------------------------- counting choices

  /** How often e occurs in t. */
  function CountIn(t: seq<int>, e: int): nat {
    if t == [] then 0 else CountIn(t[..|t| - 1], e) + if t[|t| - 1] == e then 1 else 0
  }

  lemma CountInSnoc(t: seq<int>, p: nat, e: int)
    requires p < |t|
    ensures CountIn(t[..p + 1], e) == CountIn(t[..p], e) + if t[p] == e then 1 else 0
  {
    assert t[..p + 1][..p] == t[..p];
  }

  lemma {:induction false} CountInMonotone(t: seq<int>, p: nat, q: nat, e: int)
    requires p <= q <= |t|
    ensures CountIn(t[..p], e) <= CountIn(t[..q], e)
    decreases q
  {
    if p < q {
      CountInMonotone(t, p, q - 1, e);
      CountInSnoc(t, q - 1, e);
    }
  }

  /** Where the j-th occurrence of e stands. */
  function Nth(t: seq<int>, e: int, j: nat): (p: nat)
    requires j < CountIn(t, e)
    ensures p < |t| && t[p] == e && CountIn(t[..p], e) == j
  {
    var n := |t| - 1;
    var before := t[..n];
    if j < CountIn(before, e) then
      var p := Nth(before, e, j);
      assert t[..p] == before[..p];
      p
    else n
  }

  /** Two occurrences of e with equally many before them are the same occurrence. */
  lemma SamePlace(t: seq<int>, e: int, p: nat, q: nat)
    requires p < |t| && q < |t| && t[p] == e && t[q] == e && CountIn(t[..p], e) == CountIn(t[..q], e)
    ensures p == q
  {
    if p < q {
      CountInSnoc(t, p, e);
      CountInMonotone(t, p + 1, q, e);
    } else if q < p {
      CountInSnoc(t, q, e);
      CountInMonotone(t, q + 1, p, e);
    }
  }

  /** The choices below p are numbered, and the accumulator holds their counts. */
  ghost predicate Numbered(t: seq<int>, idx: seq<int>, acc: seq<int>, p: nat) {
    && p <= |t| == |idx|
    && (forall q | 0 <= q < p && t[q] >= 0 :: idx[q] == CountIn(t[..q], t[q]))
    && (forall e | 0 <= e < |acc| :: acc[e] == CountIn(t[..p], e))
  }

  lemma NumberedNext(t: seq<int>, idx: seq<int>, acc: seq<int>, p: nat)
    requires Numbered(t, idx, acc, p) && p < |t| && t[p] < |acc|
    ensures t[p] < 0 ==> Numbered(t, idx, acc, p + 1)
    ensures t[p] >= 0 ==> Numbered(t, idx[p := acc[t[p]]], acc[t[p] := acc[t[p]] + 1], p + 1)
  {
    forall e | 0 <= e < |acc|
      ensures CountIn(t[..p + 1], e) == CountIn(t[..p], e) + if t[p] == e then 1 else 0
    {
      CountInSnoc(t, p, e);
    }
  }

  /**
   The send loop: each choice is numbered by the choices of the same expert before it, and
   the accumulator ends up with the number of choices per expert.
   */
  method NumberChoices(topk: array<int>, tokens: nat, k: nat, experts: nat) returns (idx: array<int>, acc: array<int>)
    requires topk.Length == tokens * k
    requires forall p | 0 <= p < topk.Length :: topk[p] < experts
    ensures fresh(idx) && fresh(acc) && idx.Length == topk.Length && acc.Length == experts
    ensures Numbered(topk[..], idx[..], acc[..], topk.Length)
  {
    acc := new int[experts](_ => 0);
    idx := new int[topk.Length];
    assert Numbered(topk[..], idx[..], acc[..], 0);
    hide Numbered;
    var i := 0;
    assert i * k == 0;
    while i < tokens
      invariant 0 <= i <= tokens && 0 <= i * k <= topk.Length
      invariant Numbered(topk[..], idx[..], acc[..], i * k)
    {
      RowFits(i, tokens, k);
      NumberRow(topk, i * k, k, idx, acc);
      i := i + 1;
    }
  }

  method NumberRow(topk: array<int>, row: nat, k: nat, idx: array<int>, acc: array<int>)
    requires idx != acc && idx != topk && acc != topk && row + k <= topk.Length
    requires forall p | 0 <= p < topk.Length :: topk[p] < acc.Length
    requires Numbered(topk[..], idx[..], acc[..], row)
    modifies idx, acc
    ensures Numbered(topk[..], idx[..], acc[..], row + k)
  {
    var j := 0;
    while j < k
      invariant 0 <= j <= k
      invariant Numbered(topk[..], idx[..], acc[..], row + j)
    {
      hide Numbered;
      var p := row + j;
      NumberedNext(topk[..], idx[..], acc[..], p);
      var e := topk[p];
      if e >= 0 {
        idx[p] := acc[e];
        acc[e] := acc[e] + 1;
      }
      j := j + 1;
    }
  }

  lemma RowFits(i: nat, n: nat, k: nat)
    requires i < n
    ensures i * k + k == (i + 1) * k <= n * k
  {
    MulMonotone(i + 1, n, k);
  }

  // ---------------------------------------------------------------- the received layout

  const INT32_MAX: int := 0x7FFF_FFFF

  /** What is left of a 64-bit number stored in 32 bits. */
  function ToInt32(x: int): int {
    var m := x % 0x1_0000_0000;
    if m > INT32_MAX then m - 0x1_0000_0000 else m
  }

  ghost predicate ValidRecv(recv: seq<int>, l: nat, r: nat) {
    |recv| == 3 * (r * l)
  }

  lemma PairIndex(src: nat, le: nat, l: nat, r: nat)
    requires src < r && le < l
    ensures src * l + le < r * l
  {
    RowFits(src, r, l);
  }

  /** A field of the triple for position i of the layout, which runs over the sources of each local expert in turn. */
  function Field(recv: seq<int>, l: nat, r: nat, i: nat, f: nat): int
    requires ValidRecv(recv, l, r) && i < l * r && f < 3
  {
    BlockSplit(l, r, i);
    PairIndex(i % r, i / r, l, r);
    recv[3 * (i % r * l + i / r) + f]
  }

  lemma BlockSplit(l: nat, r: nat, i: nat)
    requires i < l * r
    ensures r > 0 && i % r < r && i / r < l
  {
    assert r != 0;
    assert i == i / r * r + i % r;
    if i / r >= l { MulMonotone(l, i / r, r); }
  }

  /** Where the triple of source src for local expert le stands. */
  function PairAt(src: nat, le: nat, l: nat, r: nat): nat { 3 * (src * l + le) }

  /** The size of the first n rows of the layout. */
  function Rows(n: nat, r: nat): nat { n * r }

  function PrefixSum(recv: seq<int>, l: nat, r: nat, i: nat): int
    requires ValidRecv(recv, l, r) && i <= Rows(l, r)
  {
    if i == 0 then 0 else PrefixSum(recv, l, r, i - 1) + Field(recv, l, r, i - 1, 0)
  }

  function MaxOf(recv: seq<int>, l: nat, r: nat, i: nat): int
    requires ValidRecv(recv, l, r) && i <= Rows(l, r)
  {
    if i == 0 then 0
    else
      var x := Field(recv, l, r, i - 1, 2);
      var m := MaxOf(recv, l, r, i - 1);
      if x > m then x else m
  }

  /** The sums stored below i are the prefix sums, cut to 32 bits. */
  ghost predicate Stored(recv: seq<int>, l: nat, r: nat, count: seq<int>, i: nat)
    requires ValidRecv(recv, l, r)
  {
    |count| == Rows(l, r) && i <= Rows(l, r) && forall q | 0 < q <= i :: count[q - 1] == ToInt32(PrefixSum(recv, l, r, q))
  }

  ghost predicate Offsets(recv: seq<int>, l: nat, r: nat, offset: seq<int>, i: nat)
    requires ValidRecv(recv, l, r)
  {
    |offset| == Rows(l, r) && i <= Rows(l, r) && forall q | 0 <= q < i :: offset[q] == Field(recv, l, r, q, 1)
  }

  /** The receive loop: inclusive prefix sums in 32 bits, totals per local expert in 64. */
  method LayOut(recv: array<int>, l: nat, r: nat)
    returns (count: array<int>, offset: array<int>, perExpert: seq<int>, total: int, most: int)
    requires ValidRecv(recv[..], l, r)
    ensures fresh(count) && fresh(offset)
    ensures Stored(recv[..], l, r, count[..], Rows(l, r)) && Offsets(recv[..], l, r, offset[..], Rows(l, r))
    ensures total == PrefixSum(recv[..], l, r, Rows(l, r))
    ensures most == MaxOf(recv[..], l, r, Rows(l, r))
    ensures |perExpert| == l
    ensures forall le | 0 <= le < l ::
              perExpert[le] == PrefixSum(recv[..], l, r, RowEnd(le, l, r)) - PrefixSum(recv[..], l, r, RowEnd(le, l, r) - r)
  {
    count := new int[Rows(l, r)];
    offset := new int[Rows(l, r)];
    perExpert, total, most := [], 0, 0;
    ghost var v := recv[..];
    var le := 0;
    while le < l
      invariant 0 <= le <= l && Rows(le, r) <= Rows(l, r) && |perExpert| == le && recv[..] == v
      invariant total == PrefixSum(v, l, r, Rows(le, r)) && most == MaxOf(v, l, r, Rows(le, r))
      invariant Stored(v, l, r, count[..], Rows(le, r)) && Offsets(v, l, r, offset[..], Rows(le, r))
      invariant forall e | 0 <= e < le ::
                  perExpert[e] == PrefixSum(v, l, r, RowEnd(e, l, r)) - PrefixSum(v, l, r, RowEnd(e, l, r) - r)
    {
      hide Stored, Offsets, PrefixSum, MaxOf, ValidRecv;
      var mine;
      ghost var end := RowEnd(le, l, r);
      hide Rows;
      mine, total, most := LayRow(recv, l, r, le, Rows(le, r), total, most, count, offset);
      perExpert := perExpert + [mine];
      le := le + 1;
    }
  }

  method LayRow(recv: array<int>, l: nat, r: nat, le: nat, row: nat, before: int, high: int, count: array<int>, offset: array<int>)
    returns (mine: int, total: int, most: int)
    requires ValidRecv(recv[..], l, r) && le < l && row == Rows(le, r) && row + r <= Rows(l, r)
    requires count != offset && count != recv && offset != recv
    requires before == PrefixSum(recv[..], l, r, row) && high == MaxOf(recv[..], l, r, row)
    requires Stored(recv[..], l, r, count[..], row) && Offsets(recv[..], l, r, offset[..], row)
    modifies count, offset
    ensures total == PrefixSum(recv[..], l, r, row + r) == before + mine
    ensures most == MaxOf(recv[..], l, r, row + r)
    ensures Stored(recv[..], l, r, count[..], row + r) && Offsets(recv[..], l, r, offset[..], row + r)
  {
    mine, total, most := 0, before, high;
    ghost var v := recv[..];
    var src := 0;
    while src < r
      invariant 0 <= src <= r && recv[..] == v
      invariant total == PrefixSum(v, l, r, row + src) == before + mine
      invariant most == MaxOf(v, l, r, row + src)
      invariant Stored(v, l, r, count[..], row + src) && Offsets(v, l, r, offset[..], row + src)
    {
      hide Stored, Offsets, PrefixSum, MaxOf, Rows;
      var index := row + src;
      var pair := PairAt(src, le, l, r);
      assert pair + 2 < recv.Length by { PairIndex(src, le, l, r); }
      hide PairAt, ValidRecv;
      NextCell(v, l, r, le, src, row, pair);
      StoreNext(v, l, r, count[..], offset[..], index);
      total := total + recv[pair];
      count[index] := ToInt32(total);
      offset[index] := recv[pair + 1];
      most := if recv[pair + 2] > most then recv[pair + 2] else most;
      mine := mine + recv[pair];
      src := src + 1;
    }
  }

  lemma NextCell(recv: seq<int>, l: nat, r: nat, le: nat, src: nat, row: nat, p: nat)
    requires ValidRecv(recv, l, r) && le < l && src < r && row == Rows(le, r) && row + src < Rows(l, r)
    requires p == PairAt(src, le, l, r) && p + 2 < |recv|
    ensures PrefixSum(recv, l, r, row + src + 1) == PrefixSum(recv, l, r, row + src) + recv[p]
    ensures Field(recv, l, r, row + src, 1) == recv[p + 1]
    ensures var m := MaxOf(recv, l, r, row + src);
            MaxOf(recv, l, r, row + src + 1) == if recv[p + 2] > m then recv[p + 2] else m
  {
    DivMod(le, r, src);
  }

  lemma StoreNext(recv: seq<int>, l: nat, r: nat, count: seq<int>, offset: seq<int>, i: nat)
    requires ValidRecv(recv, l, r) && i < Rows(l, r) && Stored(recv, l, r, count, i) && Offsets(recv, l, r, offset, i)
    ensures |count| == Rows(l, r) && Stored(recv, l, r, count[i := ToInt32(PrefixSum(recv, l, r, i + 1))], i + 1)
    ensures |offset| == Rows(l, r) && Offsets(recv, l, r, offset[i := Field(recv, l, r, i, 1)], i + 1)
  {
    hide PrefixSum, ToInt32, Field;
  }

  function RowEnd(le: nat, l: nat, r: nat): (n: nat)
    requires le < l
    ensures r <= n <= Rows(l, r) && n == Rows(le, r) + r
  {
    RowFits(le, l, r);
    Rows(le + 1, r)
  }

  // ---------------------------------------------------------------- all ranks together

  /** Block i of rank d holds what source i % r sends to the rank's local expert i / r. */
  function SourceAt(r: nat, i: nat): (s: nat)
    requires r > 0
    ensures s < r
  {
    i % r
  }

  function ExpertAt(l: nat, d: nat, r: nat, i: nat): nat
    requires r > 0
  {
    d * l + i / r
  }

  function Received(tops: seq<seq<int>>, l: nat, d: nat, i: nat): nat
    requires |tops| > 0
  {
    CountIn(tops[SourceAt(|tops|, i)], ExpertAt(l, d, |tops|, i))
  }

  /** Where block i begins on rank d. */
  function Base(tops: seq<seq<int>>, l: nat, d: nat, i: nat): nat
    requires |tops| > 0
  {
    if i == 0 then 0 else Base(tops, l, d, i - 1) + Received(tops, l, d, i - 1)
  }

  function Total(tops: seq<seq<int>>, l: nat, d: nat): nat
    requires |tops| > 0
  {
    Base(tops, l, d, Rows(l, |tops|))
  }

  /** The exchange delivers exactly the counts of the send loops, transposed. */
  ghost predicate Delivered(recv: seq<int>, tops: seq<seq<int>>, l: nat, d: nat) {
    && ValidRecv(recv, l, |tops|)
    && forall src: nat, le: nat | src < |tops| && le < l ::
         PairAt(src, le, l, |tops|) < |recv| && recv[PairAt(src, le, l, |tops|)] == CountIn(tops[src], d * l + le)
  }

  /** The receive loop's prefix sums are the block bases of the whole system. */
  lemma {:induction false} PrefixIsBase(recv: seq<int>, tops: seq<seq<int>>, l: nat, d: nat, i: nat)
    requires |tops| > 0 && Delivered(recv, tops, l, d) && i <= Rows(l, |tops|)
    ensures PrefixSum(recv, l, |tops|, i) == Base(tops, l, d, i)
  {
    if i > 0 {
      FieldIsReceived(recv, tops, l, d, i - 1);
      hide Field, Received, Delivered, Rows;
      PrefixIsBase(recv, tops, l, d, i - 1);
    }
  }

  lemma FieldIsReceived(recv: seq<int>, tops: seq<seq<int>>, l: nat, d: nat, i: nat)
    requires |tops| > 0 && Delivered(recv, tops, l, d) && i < Rows(l, |tops|)
    ensures Field(recv, l, |tops|, i, 0) == Received(tops, l, d, i)
  {
    BlockSplit(l, |tops|, i);
    var src, le := i % |tops|, i / |tops|;
    hide CountIn;
    assert recv[PairAt(src, le, l, |tops|)] == CountIn(tops[src], d * l + le);
  }

  lemma {:induction false} BaseMonotone(tops: seq<seq<int>>, l: nat, d: nat, i: nat, j: nat)
    requires |tops| > 0 && i <= j
    ensures Base(tops, l, d, i) <= Base(tops, l, d, j)
    decreases j
  {
    if i < j { BaseMonotone(tops, l, d, i, j - 1); }
  }

  lemma SomeRows(l: nat, r: nat)
    requires l > 0 && r > 0
    ensures Rows(l, r) > 0
  {
    MulMonotone(1, l, r);
  }

  lemma FitsInt32(x: nat)
    ensures ToInt32(x) == x <==> x <= INT32_MAX
  {
    if x > INT32_MAX { assert ToInt32(x) <= INT32_MAX; }
  }

  /** The first n prefix sums survive being stored in 32 bits. */
  ghost predicate Exact(tops: seq<seq<int>>, l: nat, d: nat, n: nat)
    requires |tops| > 0
  {
    forall i: nat | 0 < i <= n :: ToInt32(Base(tops, l, d, i)) == Base(tops, l, d, i)
  }

  lemma ExactAt(tops: seq<seq<int>>, l: nat, d: nat, n: nat, i: nat)
    requires |tops| > 0 && Exact(tops, l, d, n) && 0 < i <= n
    ensures ToInt32(Base(tops, l, d, i)) == Base(tops, l, d, i)
  {
    hide ToInt32, Base;
  }

  /** The stored 32-bit prefix sums are the true ones if and only if the rank's total fits. */
  lemma StoredExactly(tops: seq<seq<int>>, l: nat, d: nat)
    requires |tops| > 0 && l > 0
    ensures Exact(tops, l, d, Rows(l, |tops|)) <==> Total(tops, l, d) <= INT32_MAX
  {
    var n := Rows(l, |tops|);
    SomeRows(l, |tops|);
    hide ToInt32, Base, Rows;
    FitsInt32(Base(tops, l, d, n));
    if Base(tops, l, d, n) <= INT32_MAX {
      forall i: nat | 0 < i <= n
        ensures ToInt32(Base(tops, l, d, i)) == Base(tops, l, d, i)
      {
        BaseMonotone(tops, l, d, i, n);
        FitsInt32(Base(tops, l, d, i));
      }
    } else {
      hide Exact;
      if Exact(tops, l, d, n) { ExactAt(tops, l, d, n, n); }
    }
  }

  function Zeros(n: nat): (t: seq<int>)
    ensures |t| == n && forall i | 0 <= i < n :: t[i] == 0
  {
    seq(n, _ => 0)
  }

  lemma {:induction false} CountZeros(n: nat)
    ensures CountIn(Zeros(n), 0) == n
  {
    if n > 0 {
      CountZeros(n - 1);
      assert Zeros(n)[..n - 1] == Zeros(n - 1);
    }
  }

  /** Two ranks that send n tokens each to the one expert of rank 0. */
  function TwoSenders(n: nat): seq<seq<int>> { [Zeros(n), Zeros(n)] }

  lemma TwoSendersReceived(n: nat, i: nat)
    requires i < 2
    ensures Received(TwoSenders(n), 1, 0, i) == n
  {
    CountZeros(n);
    hide CountIn, Zeros;
    assert SourceAt(2, i) == i && ExpertAt(1, 0, 2, i) == 0;
  }

  lemma TwoBlocks(tops: seq<seq<int>>, n: nat)
    requires |tops| == 2 && Received(tops, 1, 0, 0) == n && Received(tops, 1, 0, 1) == n
    ensures Total(tops, 1, 0) == 2 * n
  {
    hide Received;
    assert Rows(1, 2) == 2;
    assert Base(tops, 1, 0, 1) == n;
  }

  lemma TwoSendersTotal(n: nat)
    ensures Total(TwoSenders(n), 1, 0) == 2 * n
  {
    hide Received, Total, Zeros;
    TwoSendersReceived(n, 0);
    TwoSendersReceived(n, 1);
    TwoBlocks(TwoSenders(n), n);
  }

  lemma TwoSendersValid(n: nat)
    ensures ValidTops(TwoSenders(n), 1)
  {
    var tops := TwoSenders(n);
    forall s, p | 0 <= s < |tops| && 0 <= p < |tops[s]|
      ensures tops[s][p] < |tops| * 1
    {
      assert tops[s] == Zeros(n);
    }
  }

  /** It can happen: with 2^30 tokens each, the stored total is negative. */
  lemma StoredSumWraps()
    ensures var tops := TwoSenders(0x4000_0000);
            && ValidTops(tops, 1) && |tops| == 2 && ToInt32(Total(tops, 1, 0)) == -0x8000_0000
            && !Exact(tops, 1, 0, Rows(1, 2))
  {
    hide ValidTops, Total, Exact, Rows;
    TwoSendersTotal(0x4000_0000);
    TwoSendersValid(0x4000_0000);
    StoredExactly(TwoSenders(0x4000_0000), 1, 0);
  }

  // ---------------------------------------------------------------- slots

  datatype Choice = Choice(rank: nat, pos: nat)

  datatype Slot = Slot(rank: nat, pos: nat)

  ghost predicate ValidTops(tops: seq<seq<int>>, l: nat) {
    |tops| > 0 && l > 0 && forall s, p | 0 <= s < |tops| && 0 <= p < |tops[s]| :: tops[s][p] < |tops| * l
  }

  ghost predicate IsChoice(tops: seq<seq<int>>, c: Choice) {
    c.rank < |tops| && c.pos < |tops[c.rank]| && tops[c.rank][c.pos] >= 0
  }

  ghost predicate IsSlot(tops: seq<seq<int>>, l: nat, x: Slot) {
    |tops| > 0 && x.rank < |tops| && x.pos < Total(tops, l, x.rank)
  }

  /** The block of rank e / l that holds source s's choices of expert e. */
  function BlockOf(tops: seq<seq<int>>, l: nat, s: nat, e: nat): nat
    requires l > 0
  {
    e % l * |tops| + s
  }

  /** Where a choice goes: its destination's base for the block, plus its number among its like. */
  function SlotOf(tops: seq<seq<int>>, l: nat, c: Choice): Slot
    requires ValidTops(tops, l) && IsChoice(tops, c)
  {
    var t := tops[c.rank];
    var e := t[c.pos];
    Slot(e / l, Base(tops, l, e / l, BlockOf(tops, l, c.rank, e)) + CountIn(t[..c.pos], e))
  }

  /** The block a slot falls into. */
  function FindBlock(tops: seq<seq<int>>, l: nat, d: nat, n: nat, x: nat): (i: nat)
    requires |tops| > 0 && x < Base(tops, l, d, n)
    ensures i < n && Base(tops, l, d, i) <= x < Base(tops, l, d, i + 1)
    decreases n
  {
    if x < Base(tops, l, d, n - 1) then FindBlock(tops, l, d, n - 1, x) else n - 1
  }

  /** Who sent to a slot. */
  function OwnerOf(tops: seq<seq<int>>, l: nat, x: Slot): Choice
    requires ValidTops(tops, l) && IsSlot(tops, l, x)
  {
    var i := FindBlock(tops, l, x.rank, Rows(l, |tops|), x.pos);
    var s := SourceAt(|tops|, i);
    Choice(s, Nth(tops[s], ExpertAt(l, x.rank, |tops|, i), x.pos - Base(tops, l, x.rank, i)))
  }

  lemma BlockInside(tops: seq<seq<int>>, l: nat, s: nat, e: nat)
    requires ValidTops(tops, l) && s < |tops| && e < |tops| * l
    ensures var i := BlockOf(tops, l, s, e);
            i < Rows(l, |tops|) && i % |tops| == s && i / |tops| == e % l && e / l < |tops| && e / l * l + e % l == e
  {
    PairIndex(e % l, s, |tops|, l);
    DivMod(e % l, |tops|, s);
    assert e == e / l * l + e % l;
    if e / l >= |tops| { MulMonotone(|tops|, e / l, l); }
  }

  /** A choice's number stays below the count its block was given. */
  lemma WithinBlock(t: seq<int>, p: nat)
    requires p < |t|
    ensures CountIn(t[..p], t[p]) < CountIn(t, t[p])
  {
    CountInSnoc(t, p, t[p]);
    CountInMonotone(t, p + 1, |t|, t[p]);
    assert t[..|t|] == t;
  }

  /** Every choice gets a slot within its destination's total. */
  lemma SlotInside(tops: seq<seq<int>>, l: nat, c: Choice)
    requires ValidTops(tops, l) && IsChoice(tops, c)
    ensures var e := tops[c.rank][c.pos];
            var i := BlockOf(tops, l, c.rank, e);
            var x := SlotOf(tops, l, c);
            && IsSlot(tops, l, x)
            && Base(tops, l, x.rank, i) <= x.pos < Base(tops, l, x.rank, i + 1)
  {
    var t := tops[c.rank];
    var e := t[c.pos];
    BlockInside(tops, l, c.rank, e);
    WithinBlock(t, c.pos);
    var d, i := e / l, BlockOf(tops, l, c.rank, e);
    assert Received(tops, l, d, i) == CountIn(t, e);
    assert Base(tops, l, d, i + 1) == Base(tops, l, d, i) + Received(tops, l, d, i);
    hide Base, Received, CountIn, Rows, ValidTops, BlockOf;
    BaseMonotone(tops, l, d, i + 1, Rows(l, |tops|));
  }

  /** Blocks do not overlap. */
  lemma SameBlock(tops: seq<seq<int>>, l: nat, d: nat, i: nat, j: nat, x: nat)
    requires |tops| > 0
    requires Base(tops, l, d, i) <= x < Base(tops, l, d, i + 1)
    requires Base(tops, l, d, j) <= x < Base(tops, l, d, j + 1)
    ensures i == j
  {
    if i < j {
      BaseMonotone(tops, l, d, i + 1, j);
    } else if j < i {
      BaseMonotone(tops, l, d, j + 1, i);
    }
  }

  /** No two choices share a slot: the owner of a choice's slot is that choice. */
  lemma OwnerOfSlot(tops: seq<seq<int>>, l: nat, c: Choice)
    requires ValidTops(tops, l) && IsChoice(tops, c)
    ensures IsSlot(tops, l, SlotOf(tops, l, c))
    ensures OwnerOf(tops, l, SlotOf(tops, l, c)) == c
  {
    var t := tops[c.rank];
    var e := t[c.pos];
    var i := BlockOf(tops, l, c.rank, e);
    var x := SlotOf(tops, l, c);
    SlotInside(tops, l, c);
    BlockInside(tops, l, c.rank, e);
    SameBlock(tops, l, x.rank, i, FindBlock(tops, l, x.rank, Rows(l, |tops|), x.pos), x.pos);
    SamePlace(t, e, c.pos, Nth(t, e, x.pos - Base(tops, l, x.rank, i)));
  }

  /** The slot of a choice whose block is known. */
  lemma SlotOfBlock(tops: seq<seq<int>>, l: nat, c: Choice, d: nat, i: nat)
    requires ValidTops(tops, l) && IsChoice(tops, c) && i < Rows(l, |tops|)
    requires c.rank == SourceAt(|tops|, i) && tops[c.rank][c.pos] == ExpertAt(l, d, |tops|, i)
    ensures SlotOf(tops, l, c) == Slot(d, Base(tops, l, d, i) + CountIn(tops[c.rank][..c.pos], ExpertAt(l, d, |tops|, i)))
  {
    hide Base, CountIn, ValidTops;
    var r := |tops|;
    BlockSplit(l, r, i);
    DivMod(d, l, i / r);
    assert BlockOf(tops, l, c.rank, d * l + i / r) == i / r * r + i % r == i;
  }

  /** No slot is left empty: every slot below the total is the slot of its owner. */
  lemma SlotOfOwner(tops: seq<seq<int>>, l: nat, x: Slot)
    requires ValidTops(tops, l) && IsSlot(tops, l, x)
    ensures IsChoice(tops, OwnerOf(tops, l, x))
    ensures SlotOf(tops, l, OwnerOf(tops, l, x)) == x
  {
    hide CountIn, SlotOf, SourceAt, ExpertAt, Rows;
    var i := FindBlock(tops, l, x.rank, Rows(l, |tops|), x.pos);
    SlotOfBlock(tops, l, OwnerOf(tops, l, x), x.rank, i);
  }

  /** A block's base can be read off the stored sums when they fit. */
  lemma BaseFromCount(tops: seq<seq<int>>, l: nat, d: nat, recv: seq<int>, count: seq<int>, i: nat)
    requires |tops| > 0 && l > 0 && Delivered(recv, tops, l, d) && Total(tops, l, d) <= INT32_MAX
    requires i <= Rows(l, |tops|) && Stored(recv, l, |tops|, count, Rows(l, |tops|))
    ensures i <= |count| && Base(tops, l, d, i) == if i == 0 then 0 else count[i - 1]
  {
    hide ToInt32, PrefixSum, Rows, CountIn;
    StoredExactly(tops, l, d);
    PrefixIsBase(recv, tops, l, d, i);
    if i > 0 { ExactAt(tops, l, d, Rows(l, |tops|), i); }
  }

  /** What the two loops leave behind is the slot, read off their outputs, when the totals fit. */
  lemma SlotFromLoops(tops: seq<seq<int>>, l: nat, c: Choice, recv: seq<int>, count: seq<int>, number: int)
    requires ValidTops(tops, l) && IsChoice(tops, c)
    requires var d := tops[c.rank][c.pos] / l;
             && Delivered(recv, tops, l, d) && Total(tops, l, d) <= INT32_MAX
             && Stored(recv, l, |tops|, count, Rows(l, |tops|))
    requires number == CountIn(tops[c.rank][..c.pos], tops[c.rank][c.pos])
    ensures var i := BlockOf(tops, l, c.rank, tops[c.rank][c.pos]);
            i <= |count| && SlotOf(tops, l, c).pos == (if i == 0 then 0 else count[i - 1]) + number
  {
    hide ToInt32, Base, PrefixSum, Delivered, Stored, Total, CountIn;
    var e := tops[c.rank][c.pos];
    BlockInside(tops, l, c.rank, e);
    BaseFromCount(tops, l, e / l, recv, count, BlockOf(tops, l, c.rank, e));
  }

  // ---------------------------------------------------------------- conservation

  function Chosen(t: seq<int>): nat {
    if t == [] then 0 else Chosen(t[..|t| - 1]) + if t[|t| - 1] >= 0 then 1 else 0
  }

  function AllChosen(tops: seq<seq<int>>): nat {
    if tops == [] then 0 else AllChosen(tops[..|tops| - 1]) + Chosen(tops[|tops| - 1])
  }

  /** Everything all sources send to expert e. */
  function PerExpert(tops: seq<seq<int>>, e: int): nat {
    if tops == [] then 0 else PerExpert(tops[..|tops| - 1], e) + CountIn(tops[|tops| - 1], e)
  }

  function ExpertsBelow(tops: seq<seq<int>>, n: nat): nat {
    if n == 0 then 0 else ExpertsBelow(tops, n - 1) + PerExpert(tops, n - 1)
  }

  function Totals(tops: seq<seq<int>>, l: nat, n: nat): nat
    requires |tops| > 0
  {
    if n == 0 then 0 else Totals(tops, l, n - 1) + Total(tops, l, n - 1)
  }

  /** One source's choices, split by expert, add up again. */
  lemma {:induction false} SplitByExpert(t: seq<int>, n: nat)
    requires forall p | 0 <= p < |t| :: t[p] < n
    ensures ExpertsBelow([t], n) == Chosen(t)
    decreases |t|
  {
    if t == [] {
      NoChoices(n);
    } else {
      var m := |t| - 1;
      SplitByExpert(t[..m], n);
      OneMore(t, n);
    }
  }

  lemma {:induction false} NoChoices(n: nat)
    ensures ExpertsBelow([[]], n) == 0
  {
    if n > 0 {
      NoChoices(n - 1);
      Singleton([], n - 1);
    }
  }

  lemma {:induction false} OneMore(t: seq<int>, n: nat)
    requires t != []
    ensures var e := t[|t| - 1];
            ExpertsBelow([t], n) == ExpertsBelow([t[..|t| - 1]], n) + if 0 <= e < n then 1 else 0
  {
    if n > 0 {
      OneMore(t, n - 1);
      Singleton(t, n - 1);
      Singleton(t[..|t| - 1], n - 1);
    }
  }

  lemma Singleton(t: seq<int>, e: int)
    ensures PerExpert([t], e) == CountIn(t, e)
  {
    assert [t][..0] == [];
  }

  /** Summing over experts first or over sources first is the same. */
  lemma {:induction false} SourcesAdd(tops: seq<seq<int>>, n: nat)
    requires tops != []
    ensures ExpertsBelow(tops, n) == ExpertsBelow(tops[..|tops| - 1], n) + ExpertsBelow([tops[|tops| - 1]], n)
  {
    if n > 0 {
      SourcesAdd(tops, n - 1);
      Singleton(tops[|tops| - 1], n - 1);
    }
  }

  lemma {:induction false} NoSources(n: nat)
    ensures ExpertsBelow([], n) == 0
  {
    if n > 0 { NoSources(n - 1); }
  }

  lemma {:induction false} ExpertsAreChoices(tops: seq<seq<int>>, n: nat)
    requires forall s, p | 0 <= s < |tops| && 0 <= p < |tops[s]| :: tops[s][p] < n
    ensures ExpertsBelow(tops, n) == AllChosen(tops)
    decreases |tops|
  {
    if tops == [] {
      NoSources(n);
    } else {
      SourcesAdd(tops, n);
      ExpertsAreChoices(tops[..|tops| - 1], n);
      SplitByExpert(tops[|tops| - 1], n);
    }
  }

  /** Within one local expert, the blocks of a rank run over the sources. */
  lemma {:induction false} BlocksOfExpert(tops: seq<seq<int>>, l: nat, d: nat, le: nat, s: nat)
    requires |tops| > 0 && s <= |tops|
    ensures Base(tops, l, d, le * |tops| + s) == Base(tops, l, d, le * |tops|) + PerExpert(tops[..s], d * l + le)
  {
    if s > 0 {
      BlocksOfExpert(tops, l, d, le, s - 1);
      DivMod(le, |tops|, s - 1);
      assert tops[..s][..s - 1] == tops[..s - 1];
    }
  }

  lemma {:induction false} BaseOfExperts(tops: seq<seq<int>>, l: nat, d: nat, le: nat)
    requires |tops| > 0
    ensures ExpertsBelow(tops, d * l + le) == ExpertsBelow(tops, d * l) + Base(tops, l, d, le * |tops|)
  {
    if le > 0 {
      var e := d * l + le;
      assert ExpertsBelow(tops, e) == ExpertsBelow(tops, e - 1) + PerExpert(tops, e - 1);
      hide ExpertsBelow, PerExpert, Base;
      BaseOfExperts(tops, l, d, le - 1);
      BlocksOfExpert(tops, l, d, le - 1, |tops|);
      assert tops[..|tops|] == tops;
      assert (le - 1) * |tops| + |tops| == le * |tops|;
    } else {
      assert le * |tops| == 0;
    }
  }

  lemma {:induction false} TotalsAreExperts(tops: seq<seq<int>>, l: nat, n: nat)
    requires |tops| > 0
    ensures Totals(tops, l, n) == ExpertsBelow(tops, n * l)
  {
    if n > 0 {
      TotalsAreExperts(tops, l, n - 1);
      BaseOfExperts(tops, l, n - 1, l);
      assert (n - 1) * l + l == n * l;
    }
  }

  /** Nothing is lost and nothing is made up: all totals together are all choices together. */
  lemma Conservation(tops: seq<seq<int>>, l: nat)
    requires ValidTops(tops, l)
    ensures Totals(tops, l, |tops|) == AllChosen(tops)
  {
    TotalsAreExperts(tops, l, |tops|);
    ExpertsAreChoices(tops, |tops| * l);
  }
}
