/** Coins with fixed-point amounts: 18 decimals, stored as integers scaled by ONE.  Absent
    denominations count as zero and zero amounts are never stored. */
module Coins {
  import opened EvmTypes

  const ONE: nat := 1_000_000_000_000_000_000

  type Denom = string
  type Coins = map<Denom, nat>

  const NONE: Coins := map[]

  function Amount(c: Coins, d: Denom): nat {
    if d in c then c[d] else 0
  }

  /** No zero amounts. */
  predicate Normal(c: Coins) {
    forall d :: d in c ==> c[d] > 0
  }

  function Add(a: Coins, b: Coins): (c: Coins)
    ensures forall d :: Amount(c, d) == Amount(a, d) + Amount(b, d)
    ensures Normal(a) && Normal(b) ==> Normal(c)
  {
    map d | d in a.Keys + b.Keys :: Amount(a, d) + Amount(b, d)
  }

  /** Every amount of b is covered by a. */
  predicate Covered(b: Coins, a: Coins) {
    forall d :: d in b ==> b[d] <= Amount(a, d)
  }

  /** SafeSub: None when some amount would be negative. */
  function SafeSub(a: Coins, b: Coins): (r: Option<Coins>)
    ensures r.Some? <==> Covered(b, a)
    ensures r.Some? ==> Normal(r.value) && forall d :: Amount(r.value, d) == Amount(a, d) - Amount(b, d)
  {
    if Covered(b, a) then Some(map d | d in a && a[d] > Amount(b, d) :: a[d] - Amount(b, d))
    else None
  }

  /** MulDecTruncate. */
  function MulTruncate(c: Coins, f: nat): (r: Coins)
    ensures Normal(r)
    ensures forall d :: Amount(r, d) == Amount(c, d) * f / ONE
  {
    map d | d in c && c[d] * f / ONE > 0 :: c[d] * f / ONE
  }

  /** QuoTruncate of two decimals. */
  function QuoTruncate(a: nat, b: nat): nat
    requires b > 0
  {
    a * ONE / b
  }

  /** TruncateDecimal: the whole part and the remainder. */
  function Truncate(c: Coins): (r: (Coins, Coins))
    ensures Normal(r.0) && Normal(r.1)
    ensures forall d :: Amount(r.0, d) + Amount(r.1, d) == Amount(c, d)
    ensures forall d :: Amount(r.0, d) % ONE == 0 && Amount(r.1, d) < ONE
  {
    (map d | d in c && c[d] / ONE > 0 :: c[d] / ONE * ONE,
     map d | d in c && c[d] % ONE > 0 :: c[d] % ONE)
  }

  // ---------- Truncating shares of an amount ----------

  /** The rewards an amount r yields for fractions fs, each truncated. */
  function Shared(r: nat, fs: seq<nat>): nat {
    if fs == [] then 0 else Shared(r, fs[..|fs| - 1]) + r * fs[|fs| - 1] / ONE
  }

  function Total(fs: seq<nat>): nat {
    if fs == [] then 0 else Total(fs[..|fs| - 1]) + fs[|fs| - 1]
  }

  lemma TruncatedProduct(r: nat, f: nat)
    ensures r * f - ONE < r * f / ONE * ONE <= r * f
  {
  }

  /** Truncated rewards stay within the exact share, and fall short of it by less than one
      unit for each fraction. */
  lemma {:induction false} SharedBounds(r: nat, fs: seq<nat>)
    ensures r * Total(fs) - |fs| * ONE <= Shared(r, fs) * ONE <= r * Total(fs)
  {
    if fs != [] {
      var n := |fs| - 1;
      SharedBounds(r, fs[..n]);
      TruncatedProduct(r, fs[n]);
      assert r * Total(fs) == r * Total(fs[..n]) + r * fs[n];
    }
  }

  /** Fractions that add up to at most one never give away more than there is. */
  lemma SharedWithin(r: nat, fs: seq<nat>)
    requires Total(fs) <= ONE
    ensures Shared(r, fs) <= r
  {
    hide Shared, Total;
    SharedBounds(r, fs);
    MulMonotone(r, Total(fs), ONE);
  }

  lemma MulMonotone(r: nat, a: nat, b: nat)
    requires a <= b
    ensures r * a <= r * b
  {
  }
}
