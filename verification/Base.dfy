/** Values every component shares: optional values, results and bytes. */
module Base {

  datatype Option<+T> = None | Some(value: T)

  datatype Result<+T, +E> = Ok(value: T) | Err(error: E)

  type byte = x: int | 0 <= x < 0x100

  type Bytes = seq<byte>

  const MAX_I128 := 170141183460469231731687303715884105727

  const MAX_SAFE_INTEGER := 9007199254740991

  predicate SafePositive(n: int) {
    0 < n <= MAX_SAFE_INTEGER
  }

  function Pow2(k: nat): (p: nat)
    ensures p > 0
  {
    if k == 0 then 1 else 2 * Pow2(k - 1)
  }

  lemma {:induction false} Pow2Splits(a: nat, b: nat)
    ensures Pow2(a + b) == Pow2(a) * Pow2(b)
  {
    if a > 0 {
      Pow2Splits(a - 1, b);
    }
  }

  lemma Pow2Values()
    ensures Pow2(5) == 32 && Pow2(16) == 0x1_0000 && Pow2(32) == 0x1_0000_0000
  {
    assert Pow2(2) == 4;
    Pow2Splits(2, 2);
    assert Pow2(5) == 2 * Pow2(4);
    Pow2Splits(4, 4);
    Pow2Splits(8, 8);
    Pow2Splits(16, 16);
  }

  /** The positive safe integers are those of 53 bits; a signed 128-bit integer has 127 beside its sign. */
  lemma WidthsAre(n: int)
    ensures SafePositive(n) <==> 1 <= n < Pow2(53)
    ensures n <= MAX_I128 <==> n < Pow2(127)
  {
    Pow2Values();
    Pow2Splits(16, 5);
    Pow2Splits(32, 21);
    Pow2Splits(32, 32);
    assert Pow2(64) == 2 * Pow2(63);
    Pow2Splits(64, 63);
  }

  function Min(a: int, b: int): int {
    if a < b then a else b
  }

  function Max(a: int, b: int): int {
    if a < b then b else a
  }

  /** `high << 8 | low` for a byte `low`. */
  function Shift8(high: nat, low: int): (r: nat)
    requires 0 <= low < 0x100
    ensures r == high * 0x100 + low
  {
    high * 0x100 + low
  }

  /** The natural numbers below n. */
  function Below(n: nat): (s: set<int>)
    ensures forall i :: i in s <==> 0 <= i < n
  {
    if n == 0 then {} else Below(n - 1) + {n - 1}
  }

  lemma {:induction false} BelowSize(n: nat)
    ensures |Below(n)| == n
  {
    if n > 0 {
      BelowSize(n - 1);
      assert n - 1 !in Below(n - 1);
    }
  }

  /** Pigeonhole: n distinct numbers below n are all of them. */
  lemma FullSet(s: set<int>, n: nat)
    requires s <= Below(n)
    ensures |s| <= n
    ensures |s| == n <==> s == Below(n)
  {
    BelowSize(n);
    var missing := Below(n) - s;
    assert Below(n) == s + missing;
    if |s| == n {
      assert missing == {};
    }
  }

  lemma Euclid(n: nat, q: nat)
    requires q > 0
    ensures n / q >= 0 && 0 <= n % q < q && n == n / q * q + n % q
  {
  }

  /** Multiples of c grow with the factor, by at least c a step. */
  lemma {:induction false} Multiples(a: nat, b: nat, c: nat)
    requires a <= b
    ensures a * c <= b * c && (a < b ==> a * c + c <= b * c)
  {
    if a < b {
      Multiples(a, b - 1, c);
      assert b * c == (b - 1) * c + c;
    }
  }

  lemma Associates<T>(a: seq<T>, b: seq<T>, c: seq<T>)
    ensures (a + b) + c == a + (b + c)
  {
  }

  // ---------------------------------------------------------------------
  // Sequences of numbers in dictionary order
  // ---------------------------------------------------------------------

  /** JavaScript's `<` on strings, code unit by code unit. */
  predicate Less(a: seq<int>, b: seq<int>) {
    if b == [] then false
    else if a == [] then true
    else a[0] < b[0] || (a[0] == b[0] && Less(a[1..], b[1..]))
  }

  /** At position k the two part for the first time, and a has the smaller number there or ends. */
  predicate PartsAt(a: seq<int>, b: seq<int>, k: nat) {
    k <= |a| && k < |b| && a[..k] == b[..k] && (k == |a| || a[k] < b[k])
  }

  lemma PartsLater(a: seq<int>, b: seq<int>, k: nat)
    requires PartsAt(a, b, k)
    ensures k > 0 ==> a != [] && b != [] && a[0] == b[0]
  {
    if k > 0 {
      assert a[..k][0] == b[..k][0];
    }
  }

  /** What the order is: a proper prefix comes first, and otherwise the smaller number where the two first differ. */
  lemma {:induction false} LessMeans(a: seq<int>, b: seq<int>)
    ensures Less(a, b) <==> exists k: nat :: PartsAt(a, b, k)
  {
    if a == [] || b == [] || a[0] != b[0] {
      if Less(a, b) {
        assert PartsAt(a, b, 0);
      } else if k: nat :| PartsAt(a, b, k) {
        PartsLater(a, b, k);
      }
    } else {
      LessMeans(a[1..], b[1..]);
      if Less(a, b) {
        var k: nat :| PartsAt(a[1..], b[1..], k);
        assert a[..k + 1] == [a[0]] + a[1..][..k] && b[..k + 1] == [b[0]] + b[1..][..k];
        assert PartsAt(a, b, k + 1);
      }
      if k: nat :| PartsAt(a, b, k) {
        assert k > 0;
        assert a[1..][..k - 1] == a[..k][1..] && b[1..][..k - 1] == b[..k][1..];
        assert PartsAt(a[1..], b[1..], k - 1);
      }
    }
  }

  lemma {:induction false} LessIrreflexive(a: seq<int>)
    ensures !Less(a, a)
  {
    if a != [] {
      LessIrreflexive(a[1..]);
    }
  }

  lemma {:induction false} LessTransitive(a: seq<int>, b: seq<int>, c: seq<int>)
    requires Less(a, b) && Less(b, c)
    ensures Less(a, c)
  {
    if a != [] && a[0] == b[0] == c[0] {
      LessTransitive(a[1..], b[1..], c[1..]);
    }
  }

  /** Two sequences neither of which comes first are the same. */
  lemma {:induction false} LessTotal(a: seq<int>, b: seq<int>)
    ensures Less(a, b) || Less(b, a) || a == b
  {
    if a != [] && b != [] && a[0] == b[0] {
      LessTotal(a[1..], b[1..]);
      assert a == [a[0]] + a[1..] && b == [b[0]] + b[1..];
    }
  }
}
