/** The searches for clock divisors of the three controller families: each finds the
    smallest divisor its register can express that keeps the clock within the request. */
module Clocks {
  import opened Mmc
  import opened Capacity

  lemma {:induction false} DivAntitone(n: nat, x: nat, y: nat)
    requires 0 < x <= y
    ensures n / y <= n / x
  {
    var q := n / y;
    DivTimes(n, y);
    MulMonotone(x, y, q);
    if n / x < q {
      DivTimes(n, x);
      MulMonotone(n / x + 1, q, x);
    }
  }

  // ---- uSDHC: a power-of-two prescaler and a divisor of 1 to 16 ----

  function Pow2(k: nat): (p: nat)
    ensures p >= 1
  {
    if k == 0 then 1 else 2 * Pow2(k - 1)
  }

  /** Division factor of prescaler 2^k and divisor e; in DDR mode it is doubled. */
  function Factor(k: nat, e: nat, ddr: bool): (f: nat)
    requires e > 0
    ensures f > 0
  {
    MulPositive(Pow2(k), e);
    Pow2(k) * e * if ddr then 2 else 1
  }

  lemma {:induction false} MulPositive(x: nat, y: nat)
    requires x > 0 && y > 0
    ensures x * y > 0
  {
  }

  /** The divided clock does not exceed the request; the source divides integers. */
  predicate Meets(host: uint32, freq: uint32, k: nat, e: nat, ddr: bool)
    requires e > 0
  {
    host / Factor(k, e, ddr) <= freq
  }

  /** Contents of the two register fields. */
  datatype Usdhc = Usdhc(sdclkfs: nat, dvs: nat)

  /** How the driver reads the fields back. */
  function Decode(r: Usdhc, ddr: bool): nat {
    if ddr then (if r.sdclkfs != 0 then r.sdclkfs * 4 else 2) * (r.dvs + 1)
    else (if r.sdclkfs != 0 then r.sdclkfs * 2 else 1) * (r.dvs + 1)
  }

  /** With divisors up to 16 exhausted for a prescaler, so are they for all smaller ones. */
  lemma {:induction false} SmallerPrescaler(host: uint32, freq: uint32, k: nat, j: nat, e: nat, ddr: bool)
    requires k <= j && 1 <= e <= 16 && !Meets(host, freq, j, 16, ddr)
    ensures !Meets(host, freq, k, e, ddr)
  {
    PowMonotone(k, j);
    MulMonotone(e, 16, Pow2(k));
    MulMonotone(Pow2(k), Pow2(j), 16);
    DivAntitone(host, Factor(k, e, ddr), Factor(j, 16, ddr));
  }

  lemma {:induction false} PowMonotone(k: nat, j: nat)
    requires k <= j
    ensures Pow2(k) <= Pow2(j)
    decreases j
  {
    if k == j {
    } else {
      PowMonotone(k, j - 1);
    }
  }

  /** With a larger prescaler nothing is gained: the factor is either reached by the
      smaller prescaler as well, or larger than all of its factors. */
  lemma {:induction false} LargerPrescaler(k: nat, j: nat, e: nat, ddr: bool)
    requires k <= j && e > 0
    ensures var e' := Pow2(j - k) * e;
            e' > 0 && Factor(j, e, ddr) == Factor(k, e', ddr)
    decreases j
  {
    if k == j {
    } else {
      LargerPrescaler(k, j - 1, e, ddr);
      var p := Pow2(j - 1 - k) * e;
      assert Pow2(j - k) * e == 2 * p by {
        MulAssoc(2, Pow2(j - 1 - k), e);
      }
      assert Pow2(j) * e == 2 * (Pow2(j - 1) * e) by {
        MulAssoc(2, Pow2(j - 1), e);
      }
      assert Pow2(k) * (2 * p) == 2 * (Pow2(k) * p);
    }
  }

  lemma {:induction false} MulAssoc(x: nat, y: nat, z: nat)
    ensures x * y * z == x * (y * z)
  {
  }

  lemma {:induction false} FactorMonotone(k: nat, e: nat, f: nat, ddr: bool)
    requires 0 < e <= f
    ensures Factor(k, e, ddr) <= Factor(k, f, ddr)
  {
    MulMonotone(e, f, Pow2(k));
  }

  /** The chosen pair is the best one. */
  lemma {:induction false} Optimal(host: uint32, freq: uint32, k: nat, d: nat, ddr: bool, j: nat, e: nat)
    requires k <= 8 && 1 <= d <= 16 && j <= 8 && 1 <= e <= 16 && Meets(host, freq, j, e, ddr)
    requires k > 0 ==> !Meets(host, freq, k - 1, 16, ddr)
    requires d > 1 ==> !Meets(host, freq, k, d - 1, ddr)
    ensures Factor(k, d, ddr) <= Factor(j, e, ddr)
  {
    if j < k {
      SmallerPrescaler(host, freq, j, k - 1, e, ddr);
    } else {
      var e' := Pow2(j - k) * e;
      LargerPrescaler(k, j, e, ddr);
      if e' < d {
        FactorMonotone(k, e', d - 1, ddr);
        DivAntitone(host, Factor(k, e', ddr), Factor(k, d - 1, ddr));
      } else {
        FactorMonotone(k, d, e', ddr);
      }
    }
  }

  /** What the fields may hold: no bit or one bit of eight, and four bits. */
  predicate Encodable(r: Usdhc) {
    r.sdclkfs in {0, 1, 2, 4, 8, 16, 32, 64, 128} && r.dvs < 16
  }

  /** The clock as the driver reads it back is within the request. */
  predicate Within(host: uint32, freq: uint32, r: Usdhc, ddr: bool) {
    Decode(r, ddr) > 0 && host / Decode(r, ddr) <= freq
  }

  function Exponent(sdclkfs: nat): (k: nat)
    requires sdclkfs in {0, 1, 2, 4, 8, 16, 32, 64, 128}
    ensures k <= 8 && sdclkfs == Pow2(k) / 2
  {
    if sdclkfs == 0 then 0 else if sdclkfs == 1 then 1 else 1 + Exponent(sdclkfs / 2)
  }

  /** No contents of the fields that meet the request divide by less. */
  lemma {:induction false} LeastFields(host: uint32, freq: uint32, k: nat, d: nat, ddr: bool)
    requires k <= 8 && 1 <= d <= 16
    requires k > 0 ==> !Meets(host, freq, k - 1, 16, ddr)
    requires d > 1 ==> !Meets(host, freq, k, d - 1, ddr)
    ensures forall q | Encodable(q) && Within(host, freq, q, ddr) ::
      Decode(Usdhc(Pow2(k) / 2, d - 1), ddr) <= Decode(q, ddr)
  {
    forall q | Encodable(q) && Within(host, freq, q, ddr)
      ensures Factor(k, d, ddr) <= Decode(q, ddr)
    {
      var j, e := Exponent(q.sdclkfs), q.dvs + 1;
      RoundTrip(j, e, ddr);
      Optimal(host, freq, k, d, ddr, j, e);
    }
    RoundTrip(k, d, ddr);
  }

  lemma {:induction false} FieldsMeet(host: uint32, freq: uint32, k: nat, d: nat, ddr: bool)
    requires k <= 8 && 1 <= d <= 16 && (Meets(host, freq, k, d, ddr) || (k == 8 && d == 16))
    ensures var r := Usdhc(Pow2(k) / 2, d - 1);
            Encodable(r) && (Within(host, freq, r, ddr) || r == Usdhc(128, 15))
  {
    RoundTrip(k, d, ddr);
    PowHalves(k);
  }

  /** Search for prescaler and divisor. The clock as the driver reads it back is within the
      request, unless the fields hold the largest factor there is; and no contents of the
      fields with a clock within the request divide by less. */
  method SetClockUsdhc(host: uint32, freq: uint32, ddr: bool) returns (r: Usdhc)
    ensures Encodable(r) && (Within(host, freq, r, ddr) || r == Usdhc(128, 15))
    ensures forall q | Encodable(q) && Within(host, freq, q, ddr) ::
      Decode(r, ddr) <= Decode(q, ddr)
  {
    var ddrPreDiv := if ddr then 2 else 1;
    var preDiv: nat, div: nat := 1, 1;
    ghost var k: nat := 0;
    while preDiv < 256 && host / (16 * preDiv * ddrPreDiv) > freq
      invariant k <= 8 && preDiv == Pow2(k) && (preDiv < 256 <==> k < 8)
      invariant k > 0 ==> !Meets(host, freq, k - 1, 16, ddr)
      decreases 8 - k
    {
      assert !Meets(host, freq, k, 16, ddr);
      preDiv := preDiv * 2;
      k := k + 1;
      PowOf8(k);
    }
    while div < 16 && host / (div * preDiv * ddrPreDiv) > freq
      invariant 1 <= div <= 16
      invariant div > 1 ==> !Meets(host, freq, k, div - 1, ddr)
      decreases 16 - div
    {
      assert !Meets(host, freq, k, div, ddr);
      div := div + 1;
    }
    r := Usdhc(preDiv / 2, div - 1);
    FieldsMeet(host, freq, k, div, ddr);
    LeastFields(host, freq, k, div, ddr);
  }

  lemma {:induction false} PowOf8(k: nat)
    requires k <= 8
    ensures Pow2(k) < 256 <==> k < 8
    ensures Pow2(k) <= 256
  {
    PowMonotone(k, 8);
    if k < 8 {
      PowMonotone(k, 7);
    }
  }

  /** The driver reads back what it has programmed. */
  lemma {:induction false} RoundTrip(k: nat, d: nat, ddr: bool)
    requires k <= 8 && 1 <= d <= 16
    ensures Decode(Usdhc(Pow2(k) / 2, d - 1), ddr) == Factor(k, d, ddr)
    ensures Pow2(k) / 2 < 256
  {
    PowOf8(k);
    if k == 0 {
      assert Pow2(k) == 1;
    } else {
      var p := Pow2(k - 1);
      assert Pow2(k) == 2 * p && Pow2(k) / 2 == p;
      MulAssoc(2, 2 * p, d);
    }
  }

  lemma {:induction false} PowHalves(k: nat)
    requires k <= 8
    ensures Pow2(k) / 2 in {0, 1, 2, 4, 8, 16, 32, 64, 128} && (k == 8 ==> Pow2(k) / 2 == 128)
    decreases k
  {
    if k == 0 {
    } else {
      PowHalves(k - 1);
    }
  }

  // ---- iproc, Bcm2711: even divisors in a field split into 8 and 2 bits ----

  datatype Iproc = Iproc(low8: nat, high2: nat)

  function DecodeIproc(r: Iproc): nat {
    (r.low8 + r.high2 * 256) * 2
  }

  function EncodeIproc(div: nat): Iproc {
    Iproc(div / 2 % 256, div / 2 / 256 % 4)
  }

  /** All even divisors fit; the divisor 1 reads back as 0. */
  lemma {:induction false} IprocRoundTrip(div: nat)
    requires 1 <= div <= 2046 && (div == 1 || div % 2 == 0)
    ensures var r := EncodeIproc(div);
            && r.low8 < 256 && r.high2 < 4
            && (DecodeIproc(r) == div <==> div != 1)
            && (div == 1 ==> DecodeIproc(r) == 0)
  {
  }

  /** Search for the smallest even divisor that meets the request, 2046 if none does; 1 if
      no division is needed. With frequency 0 the clock stays off. */
  method SetClockIproc(host: uint32, freq: uint32) returns (r: Option<Iproc>)
    ensures r.None? <==> freq == 0
    ensures r.Some? && host <= freq ==> r.value == EncodeIproc(1)
    ensures r.Some? && host > freq ==>
              var div := DecodeIproc(r.value);
              && r.value == EncodeIproc(div) && div % 2 == 0 && 2 <= div <= 2046
              && (host / div <= freq || div == 2046)
              && forall e | 2 <= e < div && e % 2 == 0 :: host / e > freq
  {
    if freq == 0 {
      return None;
    }
    var div: nat;
    if host <= freq {
      div := 1;
    } else {
      div := 2;
      while div < 2046 && host / div > freq
        invariant 2 <= div <= 2046 && div % 2 == 0
        invariant forall e | 2 <= e < div && e % 2 == 0 :: host / e > freq
        decreases 2046 - div
      {
        div := div + 2;
      }
    }
    IprocRoundTrip(div);
    div := div / 2;
    r := Some(Iproc(div % 256, div / 256 % 4));
  }

  // ---- SDHI: divisors 1 to 512, powers of two, of a 200 MHz clock ----

  const SDHI_BASE := 200_000_000

  function SdhiDivisor(field: nat): nat {
    if field == 0xff then 1 else if field == 0 then 2 else field * 4
  }

  /** None is the exception for an invalid divisor. */
  function SdhiField(divisor: nat): Option<nat> {
    if divisor in {4, 8, 16, 32, 64, 128, 256, 512} then Some(divisor / 4)
    else if divisor == 2 then Some(0)
    else if divisor == 1 then Some(0xff)
    else None
  }

  predicate Legal(divisor: nat) {
    divisor in {1, 2, 4, 8, 16, 32, 64, 128, 256, 512}
  }

  /** Setting and reading the divisor are inverse to each other. */
  lemma {:induction false} SdhiRoundTrip(divisor: nat, field: nat)
    ensures SdhiField(divisor).Some? <==> Legal(divisor)
    ensures SdhiField(divisor).Some? ==> SdhiDivisor(SdhiField(divisor).value) == divisor
    ensures Legal(SdhiDivisor(field)) ==> SdhiField(SdhiDivisor(field)) == Some(field)
  {
  }

  /** The clock is the fastest one up to the request that a legal divisor gives. Below
      390625 Hz, the slowest clock there is, it exceeds the request. */
  method SetClockSdhi(freq: uint32) returns (field: nat)
    ensures field < 256 && Legal(SdhiDivisor(field))
    ensures SDHI_BASE / SdhiDivisor(field) <= freq <==> freq >= 390625
    ensures freq >= 390625 ==> forall d | Legal(d) && SDHI_BASE / d <= freq :: SdhiDivisor(field) <= d
    ensures freq < 390625 ==> SdhiDivisor(field) == 512
    ensures 390625 <= freq < SDHI_BASE ==> freq < 2 * (SDHI_BASE / SdhiDivisor(field))
  {
    field := 0x80;
    if freq < SDHI_BASE {
      var realClock: nat := SDHI_BASE / 512;
      while freq >= realClock * 2
        invariant realClock * SdhiDivisor(field) == SDHI_BASE && Legal(SdhiDivisor(field)) && field <= 0x80
        invariant freq >= realClock || realClock == 390625
        decreases freq - realClock
      {
        field := field / 2;
        realClock := realClock * 2;
      }
    } else {
      field := 0xff;
    }
  }
}
