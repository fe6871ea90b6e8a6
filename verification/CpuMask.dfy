/** The kernel's affinity mask for one CPU: 32-bit words in hexadecimal, most significant first. */
module CpuMask {

  const MASK_BIT: nat := 32

  function Pow(base: nat, n: nat): nat {
    if n == 0 then 1 else base * Pow(base, n - 1)
  }

  // ---------------------------------------------------------------- hexadecimal

  function HexDigit(d: nat): (c: char)
    requires d < 16
    ensures c != ','
  {
    "0123456789abcdef"[d]
  }

  function DigitValue(c: char): nat {
    if '0' <= c <= '9' then c as nat - '0' as nat
    else if 'a' <= c <= 'f' then c as nat - 'a' as nat + 10
    else 0
  }

  /** The last n hexadecimal digits of v. */
  function Hex(v: nat, n: nat): (s: string)
    ensures |s| == n && forall i | 0 <= i < n :: s[i] != ','
  {
    if n == 0 then "" else Hex(v / 16, n - 1) + [HexDigit(v % 16)]
  }

  function HexValue(s: string): nat {
    if s == "" then 0 else HexValue(s[..|s| - 1]) * 16 + DigitValue(s[|s| - 1])
  }

  lemma {:induction false} HexRoundTrip(v: nat, n: nat)
    requires v < Pow(16, n)
    ensures HexValue(Hex(v, n)) == v
    decreases n
  {
    if n > 0 {
      HexRoundTrip(v / 16, n - 1);
      var s := Hex(v, n);
      assert s[..n - 1] == Hex(v / 16, n - 1);
    }
  }

  lemma {:induction false} HexOfZero(n: nat)
    ensures HexValue(seq(n, _ => '0')) == 0
  {
    if n > 0 {
      HexOfZero(n - 1);
      assert seq(n, _ => '0')[..n - 1] == seq(n - 1, _ => '0');
    }
  }

  // ---------------------------------------------------------------- words

  /** The words of a comma-separated list. */
  function Words(s: string): (ws: seq<string>)
    ensures ws != []
  {
    if s == "" then [""]
    else
      var n := |s| - 1;
      var ws := Words(s[..n]);
      if s[n] == ',' then ws + [""] else ws[..|ws| - 1] + [ws[|ws| - 1] + [s[n]]]
  }

  lemma {:induction false} WordsOfOne(w: string)
    requires forall i | 0 <= i < |w| :: w[i] != ','
    ensures Words(w) == [w]
    decreases |w|
  {
    if w != "" {
      WordsOfOne(w[..|w| - 1]);
      assert w == w[..|w| - 1] + [w[|w| - 1]];
    }
  }

  lemma {:induction false} WordsSnoc(s: string, w: string)
    requires forall i | 0 <= i < |w| :: w[i] != ','
    ensures Words(s + "," + w) == Words(s) + [w]
    decreases |w|
  {
    var t := s + "," + w;
    var n := |t| - 1;
    if w == "" {
      assert t[..n] == s && t[n] == ',';
    } else {
      var w' := w[..|w| - 1];
      WordsSnoc(s, w');
      assert t[..n] == s + "," + w' && t[n] == w[|w| - 1];
      assert w == w' + [t[n]];
    }
  }

  /** What a list of 32-bit words stands for. */
  function Denote(ws: seq<string>): nat {
    if ws == [] then 0 else Denote(ws[..|ws| - 1]) * Pow(2, MASK_BIT) + HexValue(ws[|ws| - 1])
  }

  lemma DenoteSnoc(ws: seq<string>, w: string)
    ensures Denote(ws + [w]) == Denote(ws) * Pow(2, MASK_BIT) + HexValue(w)
  {
    hide Pow, HexValue;
    assert (ws + [w])[..|ws|] == ws;
  }

  lemma {:induction false} PowAdd(base: nat, m: nat, n: nat)
    ensures Pow(base, m + n) == Pow(base, m) * Pow(base, n)
    decreases m
  {
    if m > 0 {
      PowAdd(base, m - 1, n);
      assert base * (Pow(base, m - 1) * Pow(base, n)) == base * Pow(base, m - 1) * Pow(base, n);
    }
  }

  lemma {:induction false} PowMonotone(base: nat, m: nat, n: nat)
    requires base > 1 && m < n
    ensures Pow(base, m) < Pow(base, n)
    decreases n
  {
    PowPositive(base, n - 1);
    assert Pow(base, n) == base * Pow(base, n - 1) > Pow(base, n - 1);
    if m < n - 1 { PowMonotone(base, m, n - 1); }
  }

  lemma {:induction false} PowPositive(base: nat, n: nat)
    requires base > 0
    ensures Pow(base, n) > 0
  {
    if n > 0 { PowPositive(base, n - 1); }
  }

  /** Four bits a digit. */
  lemma {:induction false} SixteenIsFour(n: nat)
    ensures Pow(16, n) == Pow(2, 4 * n)
  {
    if n > 0 {
      SixteenIsFour(n - 1);
      PowAdd(2, 4, 4 * (n - 1));
      assert Pow(2, 4) == 16 by { assert Pow(2, 2) == 4; }
      assert 4 + 4 * (n - 1) == 4 * n;
    }
  }

  /** A mask denotes the single bit of its CPU, whatever the CPU's number. */
  method CpuToMask(cpu: nat) returns (mask: string)
    ensures Denote(Words(mask)) == Pow(2, cpu)
    ensures |Words(mask)| == cpu / MASK_BIT + 1
  {
    hide Pow, Hex, HexValue, Words, Denote;
    var group := cpu / MASK_BIT;
    var bit := cpu % MASK_BIT;
    mask := Hex(Pow(2, bit), 8);
    FirstWord(bit);
    var zeros := seq(MASK_BIT / 4, _ => '0');
    HexOfZero(8);
    var i := 0;
    while i < group
      invariant 0 <= i <= group
      invariant Denote(Words(mask)) == Pow(2, MASK_BIT * i + bit)
      invariant |Words(mask)| == i + 1
    {
      WordsSnoc(mask, zeros);
      DenoteSnoc(Words(mask), zeros);
      PowAdd(2, MASK_BIT * i + bit, MASK_BIT);
      mask := mask + "," + zeros;
      i := i + 1;
    }
  }

  lemma FirstWord(bit: nat)
    requires bit < MASK_BIT
    ensures Words(Hex(Pow(2, bit), 8)) == [Hex(Pow(2, bit), 8)]
    ensures Denote([Hex(Pow(2, bit), 8)]) == Pow(2, bit)
  {
    hide Pow, Hex, HexValue, Words;
    var w := Hex(Pow(2, bit), 8);
    SixteenIsFour(8);
    PowMonotone(2, bit, 32);
    HexRoundTrip(Pow(2, bit), 8);
    WordsOfOne(w);
    DenoteSnoc([], w);
    assert [] + [w] == [w];
  }
}
