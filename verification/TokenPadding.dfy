/**
 Choosing how mixture-of-experts layers communicate, and padding the token count for it.

 The capacity reserved for MC2 is fixed once; the choice compares the largest token count
 over all data-parallel ranks with it; the count is then padded for tensor parallelism.
 */
module TokenPadding {
  import opened Basics

  datatype Device = A2 | A3 | P310 | A5

  datatype Method = NoMoe | ALLGATHER | ALLTOALL | MC2 | FUSED_MC2

  /** `fused` is the level of the fused-MC2 switch: 0 is off. */
  datatype Config = Config(
    moe: bool, expertParallel: bool, epSize: nat, device: Device, experts: nat, epWorld: nat,
    fused: nat, draft: bool, gmmCombine: bool, w8a8: bool, worldAcrossDp: nat)

  function RoundUp(n: nat, tp: nat): nat
    requires tp > 0
  {
    (n + tp - 1) / tp * tp
  }

  function Choose(c: Config, tokens: nat, capacity: nat): Method {
    if !c.moe then NoMoe
    else if !c.expertParallel || c.epSize == 1 then ALLGATHER
    else
      match c.device
      case A2 =>
        if c.epWorld > 0 && c.experts / c.epWorld <= 24 && c.epWorld >= 16 && tokens <= capacity then MC2 else ALLGATHER
      case A3 =>
        var combine := c.epSize <= 32 && !c.draft;
        if tokens <= capacity then
          var fuse := if c.fused == 1 then combine else if c.fused == 2 then c.gmmCombine && c.w8a8 else c.fused != 0;
          if fuse then FUSED_MC2 else MC2
        else
          var fuse := if c.fused == 1 then combine else if c.fused == 2 then false else c.fused != 0;
          if fuse then FUSED_MC2 else ALLTOALL
      case P310 => ALLGATHER
      case A5 => if tokens <= capacity && c.worldAcrossDp > 1 then MC2 else ALLTOALL
  }

  /** Rounding up gives the least multiple that is not smaller. */
  lemma RoundUpIs(n: nat, tp: nat)
    requires tp > 0
    ensures RoundUp(n, tp) % tp == 0 && n <= RoundUp(n, tp) < n + tp
  {
    var q := (n + tp - 1) / tp;
    DivMod(q, tp, 0);
    assert n + tp - 1 == q * tp + (n + tp - 1) % tp;
  }

  /** A multiple that holds n holds n rounded up. */
  lemma RoundUpLeast(n: nat, m: nat, tp: nat)
    requires tp > 0
    ensures RoundUp(n, tp) <= RoundUp(m, tp) <==> n <= RoundUp(m, tp)
  {
    RoundUpIs(n, tp);
    RoundUpIs(m, tp);
    if n <= RoundUp(m, tp) && RoundUp(m, tp) < RoundUp(n, tp) {
      var a, b := (m + tp - 1) / tp, (n + tp - 1) / tp;
      assert a * tp < b * tp;
      assert a < b by { if b <= a { MulMonotone(b, a, tp); } }
      MulMonotone(a + 1, b, tp);
    }
  }

  /** The tokens the capacity was reserved for, with and without captured graphs. */
  function Reserved(captured: Option<nat>, requests: nat, queryLen: nat): nat {
    match captured
    case Some(most) => most
    case None => if requests * queryLen < 512 then requests * queryLen else 512
  }

  class TokenCapacity {
    var capacity: Option<nat>

    constructor ()
      ensures capacity == None
    {
      capacity := None;
    }

    /** The capacity is set by the first call and never changed again. */
    method Set(captured: Option<nat>, requests: nat, queryLen: nat, tp: nat)
      requires tp > 0
      modifies this
      ensures old(capacity).Some? ==> capacity == old(capacity)
      ensures old(capacity).None? ==> capacity == Some(RoundUp(Reserved(captured, requests, queryLen), tp))
    {
      if capacity.Some? { return; }
      var most := if captured.Some? then captured.value
                  else if requests * queryLen < 512 then requests * queryLen else 512;
      var perRank := (most + tp - 1) / tp;
      capacity := Some(perRank * tp);
    }
  }

  /**
   Whenever unfused MC2 is chosen, on any device, the padded count is a multiple of the
   tensor-parallel size and fits the reserved capacity; and conversely a padded count fits
   only if the count itself does.
   */
  lemma PaddedFits(c: Config, tokens: nat, reserved: nat, tp: nat)
    requires tp > 0
    ensures RoundUp(tokens, tp) % tp == 0
    ensures Choose(c, tokens, RoundUp(reserved, tp)).MC2? ==> RoundUp(tokens, tp) <= RoundUp(reserved, tp)
    ensures RoundUp(tokens, tp) <= RoundUp(reserved, tp) <==> tokens <= RoundUp(reserved, tp)
  {
    RoundUpIs(tokens, tp);
    RoundUpLeast(tokens, reserved, tp);
    hide RoundUp;
  }

  /** Why the capacity is rounded: every count that fits pads to one that fits if and only if the capacity is a multiple. */
  lemma OnlyMultiplesFit(capacity: nat, tp: nat)
    requires tp > 0
    ensures (forall n: nat | n <= capacity :: RoundUp(n, tp) <= capacity) <==> capacity % tp == 0
  {
    RoundUpIs(capacity, tp);
    if capacity % tp == 0 {
      RoundUpOfMultiple(capacity, tp);
      forall n: nat | n <= capacity
        ensures RoundUp(n, tp) <= capacity
      {
        RoundUpLeast(n, capacity, tp);
      }
    } else {
      assert RoundUp(capacity, tp) != capacity;
    }
  }

  lemma RoundUpOfMultiple(n: nat, tp: nat)
    requires tp > 0 && n % tp == 0
    ensures RoundUp(n, tp) == n
  {
    var q := n / tp;
    assert n == q * tp;
    DivMod(q, tp, tp - 1);
  }

  /** Both ways of computing the padding of one rank agree, and the padding is never negative. */
  lemma PadSizes(n: nat, most: nat, tp: nat)
    requires tp > 0 && n <= most
    ensures (tp - n % tp) % tp == RoundUp(n, tp) - n
    ensures RoundUp(most, tp) - n >= 0
  {
    RoundUpIs(most, tp);
    var q, m := n / tp, n % tp;
    assert n == q * tp + m;
    if m == 0 {
      DivMod(q, tp, tp - 1);
      DivMod(1, tp, 0);
    } else {
      assert n + tp - 1 == (q + 1) * tp + (m - 1);
      DivMod(q + 1, tp, m - 1);
      DivMod(0, tp, tp - m);
    }
  }
}
