/** The hexadecimal affinity mask: which threads a string of hex digits switches on. */
module CpuMask {
  import opened HexDigits

  const MAX_THREADS := 512
  const MAX_DIGITS := 128

  /** The four bits of a digit. */
  function Nibble(c: char): (v: nat)
    ensures v < 16
  {
    if IsHex(c) then HexValue(c) else 0
  }

  predicate AllHex(ds: string) {
    forall i | 0 <= i < |ds| :: IsHex(ds[i])
  }

  /** The digits that count: without a prefix `0x`, and no more than the mask has room for. */
  function Digits(mask: string): (ds: string)
    ensures |ds| <= MAX_DIGITS
  {
    var body := if |mask| >= 2 && mask[..2] == "0x" then mask[2..] else mask;
    if |body| > MAX_DIGITS then body[..MAX_DIGITS] else body
  }

  /** The prefix is optional, and digits beyond those the mask has room for are left out. */
  lemma DigitsOf(ds: string)
    ensures Digits("0x" + ds) == if |ds| <= MAX_DIGITS then ds else ds[..MAX_DIGITS]
    ensures !("0x" <= ds) ==> Digits(ds) == if |ds| <= MAX_DIGITS then ds else ds[..MAX_DIGITS]
    ensures 4 * |Digits(ds)| <= MAX_THREADS
  {
    assert ("0x" + ds)[2..] == ds && ("0x" + ds)[..2] == "0x";
  }

  function Number(ds: string): nat {
    if ds == "" then 0 else Number(ds[..|ds| - 1]) * 16 + Nibble(ds[|ds| - 1])
  }

  function Pow2(k: nat): (p: nat)
    ensures p > 0
  {
    if k == 0 then 1 else 2 * Pow2(k - 1)
  }

  predicate Bit(n: nat, j: nat) {
    n / Pow2(j) % 2 == 1
  }

  function Zeros(n: nat): (z: string)
    ensures |z| == n && forall i | 0 <= i < n :: z[i] == '0'
  {
    seq(n, i => '0')
  }

  function HexPrefix(ds: string): (p: string)
    ensures p <= ds && AllHex(p)
    ensures |p| < |ds| ==> !IsHex(ds[|p|])
  {
    if ds == "" || !IsHex(ds[0]) then "" else [ds[0]] + HexPrefix(ds[1..])
  }

  /** The digits up to the first bad one, padded with zeros to the same length. */
  function Effective(ds: string): (e: string)
    ensures |e| == |ds| && AllHex(e)
    ensures AllHex(ds) ==> e == ds
  {
    HexPrefix(ds) + Zeros(|ds| - |HexPrefix(ds)|)
  }

  /** Bit j as the digits spell it: four bits a digit, the last digit lowest. */
  predicate DigitBit(ds: string, j: nat) {
    j / 4 < |ds| && Bit(Nibble(ds[|ds| - 1 - j / 4]), j % 4)
  }

  /** The test `id & m` of the source, for a power of two m. */
  predicate Masked(id: nat, m: nat)
    requires m > 0
  {
    id / m % 2 == 1
  }

  /** Bit b of one digit, for b = 3, 2, 1, 0. */
  lemma BitsOfDigit(v: nat)
    requires v < 16
    ensures Bit(v, 3) == Masked(v, 8) && Bit(v, 2) == Masked(v, 4)
    ensures Bit(v, 1) == Masked(v, 2) && Bit(v, 0) == Masked(v, 1)
  {
    Pow2Values();
  }

  /** The four entries a digit covers. */
  lemma DigitBits(ds: string, low: nat)
    requires low % 4 == 0 && low / 4 < |ds|
    ensures forall j | low <= j < low + 4 :: DigitBit(ds, j) == Bit(Nibble(ds[|ds| - 1 - low / 4]), j - low)
  {
    hide Bit;
    assert forall j | low <= j < low + 4 :: j / 4 == low / 4 && j % 4 == j - low;
  }

  /** The entries from `low` on have taken their bits from the digits; the others are as they were. */
  predicate Covered(was: seq<bool>, now: seq<bool>, ds: string, low: int) {
    && |now| == |was|
    && forall j | 0 <= j < |was| :: now[j] == (was[j] || (j >= low && DigitBit(ds, j)))
  }

  /** The entries after setting the bits of one digit. */
  predicate FourSet(was: seq<bool>, now: seq<bool>, low: nat, id: nat) {
    && |now| == |was|
    && forall j | 0 <= j < |was| :: now[j] == (was[j] || (low <= j < low + 4 && Bit(id, j - low)))
  }

  lemma CoverNone(was: seq<bool>, ds: string)
    ensures Covered(was, was, ds, 4 * |ds|)
  {
    NoBitsAbove(ds);
  }

  lemma CoverStep(was: seq<bool>, before: seq<bool>, now: seq<bool>, ds: string, low: nat)
    requires low % 4 == 0 && low / 4 < |ds|
    requires Covered(was, before, ds, low + 4)
    requires FourSet(before, now, low, Nibble(ds[|ds| - 1 - low / 4]))
    ensures Covered(was, now, ds, low)
  {
    hide Bit, DigitBit;
    DigitBits(ds, low);
  }

  lemma CoverAll(was: seq<bool>, now: seq<bool>, ds: string)
    requires AllHex(ds) && Covered(was, now, ds, 0)
    ensures forall j: nat | j < |was| :: now[j] == (was[j] || Bit(Number(Effective(ds)), j))
  {
    hide Bit, DigitBit, Number, Effective;
    forall j: nat | j < |was|
      ensures Bit(Number(Effective(ds)), j) == DigitBit(ds, j)
    {
      BitsOfNumber(ds, j);
    }
  }

  lemma CoverStopped(was: seq<bool>, now: seq<bool>, ds: string, k: nat)
    requires k < |ds| && AllHex(ds[..k]) && !IsHex(ds[k])
    requires Covered(was, now, ds, 4 * (|ds| - k))
    ensures !AllHex(ds)
    ensures forall j: nat | j < |was| :: now[j] == (was[j] || Bit(Number(Effective(ds)), j))
  {
    PrefixStopsAt(ds, k);
    NumberOfStopped(ds, k);
    hide Bit, DigitBit, Number, Effective;
  }

  lemma FourUpdates(was: seq<bool>, low: nat, id: nat)
    requires low + 4 <= |was|
    ensures FourSet(was, was[low + 3 := was[low + 3] || Bit(id, 3)][low + 2 := was[low + 2] || Bit(id, 2)]
                            [low + 1 := was[low + 1] || Bit(id, 1)][low := was[low] || Bit(id, 0)], low, id)
  {
    hide Bit;
  }

  /** Switches on the entries of one digit's bits. */
  method SetFour(boolmask: array<bool>, low: nat, id: nat)
    requires low + 4 <= boolmask.Length && id < 16
    modifies boolmask
    ensures FourSet(old(boolmask[..]), boolmask[..], low, id)
  {
    BitsOfDigit(id);
    hide Bit, Masked, FourSet;
    ghost var was := boolmask[..];
    FourUpdates(was, low, id);
    SwitchOn(boolmask, low + 3, Masked(id, 8));
    SwitchOn(boolmask, low + 2, Masked(id, 4));
    SwitchOn(boolmask, low + 1, Masked(id, 2));
    SwitchOn(boolmask, low, Masked(id, 1));
  }

  method SwitchOn(boolmask: array<bool>, k: nat, on: bool)
    requires k < boolmask.Length
    modifies boolmask
    ensures boolmask[..] == old(boolmask[..])[k := old(boolmask[..])[k] || on]
  {
    boolmask[k] := boolmask[k] || on;
  }

  method DigitOf(c: char) returns (isHex: bool, id: nat)
    ensures isHex == IsHex(c)
    ensures id == Nibble(c) < 16
  {
    if '0' <= c <= '9' {
      return true, c as int - '0' as int;
    } else if 'a' <= c <= 'f' {
      return true, c as int - 'a' as int + 10;
    } else if 'A' <= c <= 'F' {
      return true, c as int - 'A' as int + 10;
    } else {
      return false, 0;
    }
  }

  lemma NoDigits()
    ensures AllHex("")
  {
  }

  lemma AllHexStep(ds: string, k: nat)
    requires k < |ds| && AllHex(ds[..k]) && IsHex(ds[k])
    ensures AllHex(ds[..k + 1])
  {
    assert ds[..k + 1] == ds[..k] + [ds[k]];
  }

  /** Switches on what the digits say; on a bad digit it stops, keeping what is set so far. */
  method ParseCpuMask(mask: string, boolmask: array<bool>) returns (ok: bool)
    requires boolmask.Length == MAX_THREADS
    modifies boolmask
    ensures ok == AllHex(Digits(mask))
    ensures forall j | 0 <= j < MAX_THREADS ::
              boolmask[j] == (old(boolmask[j]) || Bit(Number(Effective(Digits(mask))), j))
  {
    hide Number, Bit, DigitBit, Effective, Covered, FourSet, HexPrefix, IsHex, Nibble, AllHex;
    var startI := 0;
    if |mask| >= 2 && mask[..2] == "0x" {
      startI := 2;
    }
    var numDigits := |mask| - startI;
    if numDigits > MAX_DIGITS {
      numDigits := MAX_DIGITS;
    }
    var endI := numDigits + startI;
    ghost var ds := Digits(mask);
    assert ds == mask[startI..endI];
    ghost var was := boolmask[..];
    assert ds[..0] == "" && AllHex("") by { NoDigits(); }
    CoverNone(was, ds);
    var i, n := startI, numDigits * 4 - 1;
    while i < endI
      invariant startI <= i <= endI
      invariant n == (endI - i) * 4 - 1
      invariant AllHex(ds[..i - startI])
      invariant Covered(was, boolmask[..], ds, n + 1)
    {
      var c := mask[i];
      assert c == ds[i - startI];
      var isHex, id := DigitOf(c);
      if !isHex {
        CoverStopped(was, boolmask[..], ds, i - startI);
        return false;
      }
      AllHexStep(ds, i - startI);
      assert c == ds[|ds| - 1 - (n - 3) / 4];
      ghost var before := boolmask[..];
      SetFour(boolmask, n - 3, id);
      CoverStep(was, before, boolmask[..], ds, n - 3);
      i, n := i + 1, n - 4;
    }
    assert ds[..i - startI] == ds && n == -1;
    CoverAll(was, boolmask[..], ds);
    ok := true;
  }

  lemma {:induction false} PrefixStopsAt(ds: string, k: nat)
    requires k < |ds| && AllHex(ds[..k]) && !IsHex(ds[k])
    ensures HexPrefix(ds) == ds[..k] && !AllHex(ds)
    decreases k
  {
    if k > 0 {
      assert ds[..k][0] == ds[0] && ds[..k][1..] == ds[1..][..k - 1];
      PrefixStopsAt(ds[1..], k - 1);
      assert ds[..k] == [ds[0]] + ds[1..][..k - 1];
    }
  }

  lemma NoBitsAbove(ds: string)
    ensures forall j: nat | j >= 4 * |ds| :: !DigitBit(ds, j)
  {
  }

  /** What a run that stops at digit k has set are the bits of the padded number. */
  lemma NumberOfStopped(ds: string, k: nat)
    requires k < |ds| && HexPrefix(ds) == ds[..k]
    ensures forall j: nat ::
      Bit(Number(Effective(ds)), j) == (j > (|ds| - k) * 4 - 1 && DigitBit(ds, j))
  {
    hide *;
    var e := Effective(ds);
    forall at | 0 <= at < |ds| ensures PaddedAt(ds, e, k, at) { EffectiveAt(ds, k, at); }
    BitsOfPadded(ds, e, k);
  }

  predicate PaddedAt(ds: string, e: string, k: nat, at: nat)
    requires |e| == |ds| && at < |ds|
  {
    e[at] == if at < k then ds[at] else '0'
  }

  lemma BitsOfPadded(ds: string, e: string, k: nat)
    requires k < |ds| == |e| && forall at | 0 <= at < |ds| :: PaddedAt(ds, e, k, at)
    ensures forall j: nat :: Bit(Number(e), j) == (j > (|ds| - k) * 4 - 1 && DigitBit(ds, j))
  {
    hide *;
    forall j: nat
      ensures Bit(Number(e), j) == (j > (|ds| - k) * 4 - 1 && DigitBit(ds, j))
    {
      BitsOfNumber(e, j);
      BitOfPadded(ds, e, k, j, j / 4, j % 4);
    }
  }

  lemma BitOfPadded(ds: string, e: string, k: nat, j: nat, digit: nat, low: nat)
    requires k < |ds| == |e| && j == 4 * digit + low && low < 4
    requires digit < |ds| ==> PaddedAt(ds, e, k, |ds| - 1 - digit)
    ensures DigitBit(e, j) == (j > (|ds| - k) * 4 - 1 && DigitBit(ds, j))
  {
    hide Bit, DigitBit, Nibble;
    BitOfDigit(e, j, digit, low);
    BitOfDigit(ds, j, digit, low);
    NoBits(low);
    NibbleOfZero();
  }

  lemma BitOfDigit(ds: string, j: nat, digit: nat, low: nat)
    requires j == 4 * digit + low && low < 4
    ensures DigitBit(ds, j) == (digit < |ds| && Bit(Nibble(ds[|ds| - 1 - digit]), low))
  {
    assert j / 4 == digit && j % 4 == low;
  }

  lemma NibbleOfZero()
    ensures Nibble('0') == 0
  {
  }

  lemma EffectiveAt(ds: string, k: nat, at: nat)
    requires k < |ds| && HexPrefix(ds) == ds[..k] && at < |ds|
    ensures PaddedAt(ds, Effective(ds), k, at)
  {
  }

  lemma NoBits(j: nat)
    ensures !Bit(0, j)
  {
  }

  lemma Pow2Shift(j: nat)
    requires j >= 4
    ensures Pow2(j) == 16 * Pow2(j - 4)
  {
    assert Pow2(j) == 2 * Pow2(j - 1) && Pow2(j - 1) == 2 * Pow2(j - 2);
    assert Pow2(j - 2) == 2 * Pow2(j - 3) && Pow2(j - 3) == 2 * Pow2(j - 4);
  }

  lemma DivShift(n: nat, v: nat, j: nat)
    requires v < 16 && j >= 4
    ensures (n * 16 + v) / Pow2(j) == n / Pow2(j - 4)
  {
    hide Pow2;
    var p := Pow2(j - 4);
    Pow2Shift(j);
    var q, r := n / p, n % p;
    assert n == p * q + r;
    assert n * 16 + v == (16 * p) * q + (16 * r + v);
    assert 16 * r + v < 16 * p;
    DivUnique(n * 16 + v, 16 * p, q, 16 * r + v);
  }

  lemma DivUnique(a: nat, d: nat, q: nat, r: nat)
    requires d > 0 && a == d * q + r && r < d
    ensures a / d == q
  {
    var x: int := a / d - q;
    assert d * x == r - a % d;
    assert x >= 1 ==> d * x >= d;
    assert x <= -1 ==> d * x + d <= 0;
  }

  /** Bit j of the number is bit j of the digits, for every position. */
  lemma {:induction false} BitsOfNumber(ds: string, j: nat)
    ensures Bit(Number(ds), j) == DigitBit(ds, j)
    decreases |ds|
  {
    if ds == "" {
      NoBits(j);
    } else {
      var init, v := ds[..|ds| - 1], Nibble(ds[|ds| - 1]);
      var n := Number(init);
      if j >= 4 {
        BitsOfNumber(init, j - 4);
        DivShift(n, v, j);
        assert (j - 4) / 4 == j / 4 - 1 && (j - 4) % 4 == j % 4;
      } else {
        BitsOfDigit(v);
        LowBits(n, v, j);
      }
    }
  }

  lemma LowBits(n: nat, v: nat, j: nat)
    requires v < 16 && j < 4
    ensures Bit(n * 16 + v, j) == Bit(v, j)
  {
    Pow2Values();
    match j {
      case 0 => Halves(n * 8, v);
      case 1 => Halves(n * 4, v / 2);
      case 2 => Halves(n * 2, v / 4);
      case 3 => Halves(n, v / 8);
    }
    assert (n * 16 + v) / 2 == n * 8 + v / 2 && (n * 16 + v) / 4 == n * 4 + v / 4 && (n * 16 + v) / 8 == n * 2 + v / 8;
  }

  lemma Pow2Values()
    ensures Pow2(0) == 1 && Pow2(1) == 2 && Pow2(2) == 4 && Pow2(3) == 8
  {
    assert Pow2(2) == 4;
  }

  lemma Halves(n: nat, v: nat)
    ensures (2 * n + v) % 2 == v % 2
  {
  }
}
