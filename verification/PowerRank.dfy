/** The byte keys of the power index: prefix, big-endian power, inverted operator address.
    Their byte order read backwards is the ranking of validators. */
module PowerRank {
  import opened EvmTypes
  import opened StakingStore
  import opened ValidatorSet

  const POWER_PREFIX: Byte := 0x23
  const POWER_BYTES: nat := 8
  const ADDRESS_BYTES: nat := 20

  function Pow(k: nat): (r: nat)
    ensures r > 0
  {
    if k == 0 then 1 else 256 * Pow(k - 1)
  }

  /** The k big-endian bytes of n. */
  function BigEndian(n: nat, k: nat): (r: Bytes)
    requires n < Pow(k)
    ensures |r| == k
    decreases k
  {
    hide Pow;
    if k == 0 then []
    else
      DigitBounds(n, k);
      [n / Pow(k - 1)] + BigEndian(n % Pow(k - 1), k - 1)
  }

  lemma {:induction false} BigEndianValue(n: nat, k: nat)
    requires n < Pow(k)
    ensures Value(BigEndian(n, k)) == n
    decreases k
  {
    if k > 0 {
      DigitBounds(n, k);
      BigEndianValue(n % Pow(k - 1), k - 1);
      assert BigEndian(n, k)[1..] == BigEndian(n % Pow(k - 1), k - 1);
    }
  }

  lemma DigitBounds(n: nat, k: nat)
    requires k > 0 && n < Pow(k)
    ensures 0 <= n / Pow(k - 1) < 256 && n % Pow(k - 1) < Pow(k - 1)
    ensures n == (n / Pow(k - 1)) * Pow(k - 1) + n % Pow(k - 1)
  {
    var p, q := Pow(k - 1), n / Pow(k - 1);
    if q >= 256 {
      assert q * p >= 256 * p by { Scale(256, q, p); }
    }
  }

  lemma Scale(x: nat, y: nat, p: nat)
    requires x <= y
    ensures x * p <= y * p
  {
  }

  function Value(s: Bytes): (r: nat)
    ensures r < Pow(|s|)
  {
    if s == [] then 0
    else
      ValueBound(s[0], Pow(|s| - 1), Value(s[1..]));
      s[0] * Pow(|s| - 1) + Value(s[1..])
  }

  lemma ValueBound(d: Byte, p: nat, v: nat)
    requires v < p
    ensures d * p + v < 256 * p
  {
    Scale(d + 1, 256, p);
  }

  /** Byte order of equally long keys, as the store iterates them. */
  predicate LexLess(s: Bytes, t: Bytes)
    requires |s| == |t|
  {
    s != [] && (s[0] < t[0] || (s[0] == t[0] && LexLess(s[1..], t[1..])))
  }

  /** Byte order is the order of the values. */
  lemma {:induction false} LexIsValue(s: Bytes, t: Bytes)
    requires |s| == |t|
    ensures LexLess(s, t) <==> Value(s) < Value(t)
    decreases |s|
  {
    hide Pow;
    if s != [] {
      LexIsValue(s[1..], t[1..]);
      FirstDigit(s[0], t[0], Pow(|s| - 1), Value(s[1..]), Value(t[1..]));
      FirstDigit(t[0], s[0], Pow(|s| - 1), Value(t[1..]), Value(s[1..]));
    }
  }

  lemma FirstDigit(x: nat, y: nat, p: nat, u: nat, v: nat)
    requires u < p && v < p
    ensures x < y ==> x * p + u < y * p + v
  {
    if x < y {
      Scale(x + 1, y, p);
    }
  }

  lemma {:induction false} LexConcat(s: Bytes, u: Bytes, t: Bytes, v: Bytes)
    requires |s| == |t| && |u| == |v|
    ensures LexLess(s + u, t + v) <==> LexLess(s, t) || (s == t && LexLess(u, v))
    decreases |s|
  {
    if s == [] {
      assert s + u == u && t + v == v;
    } else {
      LexConcat(s[1..], u, t[1..], v);
      assert (s + u)[1..] == s[1..] + u && (t + v)[1..] == t[1..] + v;
      assert s == t <==> s[0] == t[0] && s[1..] == t[1..];
    }
  }

  function Inverted(s: Bytes): (r: Bytes)
    ensures |r| == |s| && forall i :: 0 <= i < |s| ==> r[i] == 255 - s[i]
  {
    seq(|s|, i requires 0 <= i < |s| => 255 - s[i])
  }

  /** Inverting every byte reverses the order. */
  lemma {:induction false} InvertedReverses(s: Bytes, t: Bytes)
    requires |s| == |t|
    ensures LexLess(Inverted(s), Inverted(t)) <==> LexLess(t, s)
    decreases |s|
  {
    if s != [] {
      InvertedReverses(s[1..], t[1..]);
      assert Inverted(s)[1..] == Inverted(s[1..]) && Inverted(t)[1..] == Inverted(t[1..]);
    }
  }

  /** The operator and the power fit their fields. */
  predicate Encodable(k: PowerKey) {
    0 <= k.power < Pow(POWER_BYTES) && k.operator < Pow(ADDRESS_BYTES)
  }

  function RankKey(k: PowerKey): (r: Bytes)
    requires Encodable(k)
    ensures |r| == 1 + POWER_BYTES + ADDRESS_BYTES
  {
    [POWER_PREFIX] + (PowerBytes(k) + Inverted(OperatorBytes(k)))
  }

  /** Reading the keys backwards ranks by power, then by lower address. */
  lemma RankKeyOrder(k: PowerKey, l: PowerKey)
    requires Encodable(k) && Encodable(l)
    ensures LexLess(RankKey(l), RankKey(k)) <==> Outranks(k, l)
  {
    hide Pow, Value, LexLess, BigEndian;
    var p, q := PowerBytes(k), PowerBytes(l);
    var a, b := OperatorBytes(k), OperatorBytes(l);
    LexConcat([POWER_PREFIX], q + Inverted(b), [POWER_PREFIX], p + Inverted(a));
    LexIsValue([POWER_PREFIX], [POWER_PREFIX]);
    LexConcat(q, Inverted(b), p, Inverted(a));
    InvertedReverses(b, a);
    LexIsValue(q, p);
    LexIsValue(a, b);
    BigEndianValue(k.power, POWER_BYTES);
    BigEndianValue(l.power, POWER_BYTES);
    BigEndianValue(k.operator, ADDRESS_BYTES);
    BigEndianValue(l.operator, ADDRESS_BYTES);
  }

  /** Different keys of the model are different keys of the store. */
  lemma RankKeyInjective(k: PowerKey, l: PowerKey)
    requires Encodable(k) && Encodable(l) && RankKey(k) == RankKey(l)
    ensures k == l
  {
    hide Pow, Value, RankKey, LexLess;
    RankKeyOrder(k, l);
    RankKeyOrder(l, k);
    LexIsValue(RankKey(k), RankKey(k));
  }

  /** getValidatorPowerRank: fills the key byte by byte. */
  method PowerRankKey(k: PowerKey) returns (key: array<Byte>)
    requires Encodable(k)
    ensures fresh(key) && key[..] == RankKey(k)
  {
    hide Pow, BigEndian, RankKey, Encodable;
    RankKeyParts(k);
    var power, operator := PowerBytes(k), OperatorBytes(k);
    key := new Byte[1 + POWER_BYTES + ADDRESS_BYTES](_ => 0);
    key[0] := POWER_PREFIX;
    for i := 0 to POWER_BYTES
      invariant key[0] == POWER_PREFIX && forall j :: 1 <= j <= i ==> key[j] == power[j - 1]
    {
      key[1 + i] := power[i];
    }
    for i := 0 to ADDRESS_BYTES
      invariant key[0] == POWER_PREFIX && forall j :: 1 <= j <= POWER_BYTES ==> key[j] == power[j - 1]
      invariant forall j :: 1 + POWER_BYTES <= j < 1 + POWER_BYTES + i ==> key[j] == 255 - operator[j - 1 - POWER_BYTES]
    {
      key[1 + POWER_BYTES + i] := 255 - operator[i];
    }
  }

  function PowerBytes(k: PowerKey): (r: Bytes)
    requires Encodable(k)
    ensures |r| == POWER_BYTES
  {
    BigEndian(k.power, POWER_BYTES)
  }

  function OperatorBytes(k: PowerKey): (r: Bytes)
    requires Encodable(k)
    ensures |r| == ADDRESS_BYTES
  {
    BigEndian(k.operator, ADDRESS_BYTES)
  }

  lemma RankKeyParts(k: PowerKey)
    requires Encodable(k)
    ensures RankKey(k)[0] == POWER_PREFIX
    ensures forall j :: 1 <= j <= POWER_BYTES ==> RankKey(k)[j] == PowerBytes(k)[j - 1]
    ensures forall j :: 1 + POWER_BYTES <= j < 1 + POWER_BYTES + ADDRESS_BYTES ==>
              RankKey(k)[j] == 255 - OperatorBytes(k)[j - 1 - POWER_BYTES]
  {
    hide Pow, BigEndian;
  }
}
