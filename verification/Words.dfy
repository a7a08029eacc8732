// Borders, periods and powers of strings: the combinatorics on words that the
// repetition detector's answer rests on.
module Words {
  import opened Arithmetic

  /** `b` is the length of a proper border of `s`: a prefix that is also a suffix. */
  predicate IsBorder(s: string, b: nat) {
    b < |s| && s[..b] == s[|s| - b..]
  }

  /** No border of `s` is longer than `m`. */
  ghost predicate BordersAtMost(s: string, m: nat) {
    forall c: nat | IsBorder(s, c) :: c <= m
  }

  /** The longest proper border, found by trying every length from the longest down. */
  function LongestBorder(s: string): (b: nat)
    requires s != []
    ensures IsBorder(s, b)
    ensures BordersAtMost(s, b)
  {
    LongestBorderUpTo(s, |s| - 1)
  }

  lemma LongestBorderIs(s: string, b: nat)
    requires IsBorder(s, b) && BordersAtMost(s, b)
    ensures LongestBorder(s) == b
  {
    assert IsBorder(s, LongestBorder(s));
  }

  function LongestBorderUpTo(s: string, limit: nat): (b: nat)
    requires limit < |s|
    ensures IsBorder(s, b)
    ensures forall c: nat | IsBorder(s, c) && c <= limit :: c <= b
  {
    if IsBorder(s, limit) then limit
    else
      assert limit != 0 by { assert s[..0] == s[|s|..]; }
      LongestBorderUpTo(s, limit - 1)
  }

  /** Every character equals the one `p` places later. */
  ghost predicate HasPeriod(s: string, p: nat) {
    1 <= p <= |s| && forall i, j | 0 <= i < j < |s| && j == i + p :: s[i] == s[j]
  }

  /** The smallest period; `SmallestPeriodIsLeast` proves the name. */
  function SmallestPeriod(s: string): nat
    requires s != []
  {
    |s| - LongestBorder(s)
  }

  function Power(w: string, k: nat): string {
    if k == 0 then [] else w + Power(w, k - 1)
  }

  /** `w` is not itself a repetition of something shorter. */
  ghost predicate Primitive(w: string) {
    w != [] && forall v, j: nat | w == Power(v, j) :: j == 1
  }

  function Gcd(a: nat, b: nat): (g: nat)
    requires a > 0 && b > 0
    ensures 0 < g <= a && g <= b
    decreases a + b
  {
    if a == b then a else if a < b then Gcd(a, b - a) else Gcd(a - b, b)
  }

  lemma {:induction false} GcdDivides(a: nat, b: nat)
    requires a > 0 && b > 0
    ensures a % Gcd(a, b) == 0 && b % Gcd(a, b) == 0
    decreases a + b
  {
    if a < b {
      GcdDivides(a, b - a);
      SumDivides(a, b - a, Gcd(a, b));
    } else if b < a {
      GcdDivides(a - b, b);
      SumDivides(a - b, b, Gcd(a, b));
    }
  }

  /** A border of length b is exactly a period of length |s| - b. */
  lemma BorderIsPeriod(s: string, b: nat)
    requires b < |s|
    ensures IsBorder(s, b) <==> HasPeriod(s, |s| - b)
  {
    var p := |s| - b;
    if IsBorder(s, b) {
      forall i, j | 0 <= i < j < |s| && j == i + p ensures s[i] == s[j] {
        assert s[..b][i] == s[|s| - b..][i];
      }
    }
    if HasPeriod(s, p) {
      forall i | 0 <= i < b ensures s[..b][i] == s[|s| - b..][i] {
        assert s[i] == s[i + p];
      }
    }
  }

  lemma SmallestPeriodIsLeast(s: string)
    requires s != []
    ensures HasPeriod(s, SmallestPeriod(s))
    ensures forall q: nat | HasPeriod(s, q) :: SmallestPeriod(s) <= q
  {
    BorderIsPeriod(s, LongestBorder(s));
    forall q: nat | HasPeriod(s, q) ensures SmallestPeriod(s) <= q {
      BorderIsPeriod(s, |s| - q);
    }
  }

  /** Fine and Wilf: two periods that fit side by side have their gcd as a period. */
  lemma {:induction false} FineWilf(s: string, p: nat, q: nat)
    requires HasPeriod(s, p) && HasPeriod(s, q) && p + q <= |s|
    ensures HasPeriod(s, Gcd(p, q))
    decreases p + q
  {
    if p < q {
      PeriodDifference(s, p, q);
      FineWilf(s, p, q - p);
    } else if q < p {
      PeriodDifference(s, q, p);
      FineWilf(s, p - q, q);
    }
  }

  lemma PeriodDifference(s: string, p: nat, q: nat)
    requires HasPeriod(s, p) && HasPeriod(s, q) && p < q && p + q <= |s|
    ensures HasPeriod(s, q - p)
  {
    forall i, j | 0 <= i < j < |s| && j == i + (q - p) ensures s[i] == s[j] {
      if p <= i {
        assert s[i - p] == s[i];
        assert s[i - p] == s[j];
      } else {
        assert s[i] == s[i + q];
        assert s[j] == s[i + q];
      }
    }
  }

  lemma {:induction false} PowerAt(w: string, k: nat)
    requires w != []
    ensures |Power(w, k)| == k * |w|
    ensures forall i | 0 <= i < |Power(w, k)| :: Power(w, k)[i] == w[i % |w|]
  {
    if k > 0 {
      PowerAt(w, k - 1);
      assert k * |w| == |w| + (k - 1) * |w|;
      forall i | 0 <= i < |Power(w, k)| ensures Power(w, k)[i] == w[i % |w|] {
        if i < |w| {
          DivModUnique(0, i, |w|);
        } else {
          assert Power(w, k)[i] == Power(w, k - 1)[i - |w|];
          ModShift(i - |w|, |w|);
        }
      }
    }
  }

  lemma PowerHasPeriod(w: string, k: nat)
    requires w != [] && k > 0
    ensures HasPeriod(Power(w, k), |w|)
  {
    PowerAt(w, k);
    var s := Power(w, k);
    assert k * |w| == |w| + (k - 1) * |w|;
    forall i, j | 0 <= i < j < |s| && j == i + |w| ensures s[i] == s[j] {
      ModShift(i, |w|);
    }
  }

  lemma {:induction false} PeriodAt(s: string, p: nat, i: nat)
    requires HasPeriod(s, p) && i < |s|
    ensures s[i] == s[i % p]
  {
    if i >= p {
      PeriodAt(s, p, i - p);
      assert s[i - p] == s[i];
      ModShift(i - p, p);
    } else {
      DivModUnique(0, i, p);
    }
  }

  /** A period that divides the length makes the word a power of its first block. */
  lemma PeriodMakesPower(s: string, p: nat)
    requires HasPeriod(s, p) && |s| % p == 0
    ensures s == Power(s[..p], |s| / p)
  {
    var w, k := s[..p], |s| / p;
    PowerAt(w, k);
    assert k * p == |s|;
    forall i | 0 <= i < |s| ensures s[i] == Power(w, k)[i] {
      PeriodAt(s, p, i);
    }
  }

  lemma {:induction false} EmptyPower(k: nat)
    ensures Power([], k) == []
  {
    if k > 0 { EmptyPower(k - 1); }
  }

  lemma PowerOne(w: string)
    ensures Power(w, 1) == w
  {
    assert Power(w, 1) == w + Power(w, 0);
  }

  /** In a proper power the smallest period divides the length of the base (by Fine and Wilf). */
  lemma SmallestPeriodDividesBase(v: string, j: nat)
    requires v != [] && j >= 2
    ensures Power(v, j) != [] && |v| % SmallestPeriod(Power(v, j)) == 0
  {
    var s := Power(v, j);
    PowerAt(v, j);
    assert |s| == j * |v| == 2 * |v| + (j - 2) * |v|;
    PowerHasPeriod(v, j);
    SmallestPeriodIsLeast(s);
    var p := SmallestPeriod(s);
    FineWilf(s, p, |v|);
    GcdDivides(p, |v|);
    assert Gcd(p, |v|) == p;
  }

  /** When the smallest period divides the length, the first block is the primitive root. */
  lemma FirstBlockIsPrimitive(s: string)
    requires s != [] && |s| % SmallestPeriod(s) == 0
    ensures Primitive(s[..SmallestPeriod(s)])
    ensures s == Power(s[..SmallestPeriod(s)], |s| / SmallestPeriod(s))
  {
    var p := SmallestPeriod(s);
    SmallestPeriodIsLeast(s);
    PeriodMakesPower(s, p);
    var w := s[..p];
    forall v, j: nat | w == Power(v, j) ensures j == 1 {
      EmptyPower(j);
      if j >= 2 {
        PowerAt(v, j);
        MultipleAtLeast(j, 2, |v|);
        InnerPeriod(s, p, v, j);
      }
    }
  }

  /** If the block that tiles a word is itself tiled by `v`, then `v` tiles the word. */
  lemma InnerPeriod(s: string, p: nat, v: string, j: nat)
    requires HasPeriod(s, p) && v != [] && s[..p] == Power(v, j) && |v| <= p
    ensures HasPeriod(s, |v|)
  {
    forall a, b | 0 <= a < b < |s| && b == a + |v| ensures s[a] == s[b] {
      PeriodAt(s, p, a);
      PeriodAt(s, p, b);
      BlockAt(v, j, p, a);
      BlockAt(v, j, p, b);
      ModShift(a, |v|);
    }
  }

  lemma BlockAt(v: string, j: nat, p: nat, i: nat)
    requires v != [] && |Power(v, j)| == p && p > 0
    ensures Power(v, j)[i % p] == v[i % |v|]
  {
    PowerAt(v, j);
    ModOfMod(i, j, |v|);
  }

  /** When it does not divide the length, the word is not a power at all. */
  lemma IndivisibleIsPrimitive(s: string)
    requires s != [] && |s| % SmallestPeriod(s) != 0
    ensures Primitive(s)
  {
    forall v, j: nat | s == Power(v, j) ensures j == 1 {
      EmptyPower(j);
      if j >= 2 {
        SmallestPeriodDividesBase(v, j);
        PowerAt(v, j);
        DivisorOfMultiple(SmallestPeriod(s), |v|, j);
      }
    }
  }

  /** A primitive root of exponent at least two has the smallest period as its length. */
  lemma RootLength(s: string, w: string, k: nat)
    requires s == Power(w, k) && Primitive(w) && k >= 2
    ensures s != [] && |w| == SmallestPeriod(s)
    ensures |s| % SmallestPeriod(s) == 0 && k == |s| / SmallestPeriod(s) && w == s[..|w|]
  {
    var p := SmallestPeriod(s);
    SmallestPeriodDividesBase(w, k);
    SmallestPeriodIsLeast(s);
    PowerHasPeriod(w, k);
    PrefixPeriod(s, w, Power(w, k - 1), p);
    PeriodMakesPower(w, p);
    assert |w| / p == 1;
    assert |w| == p;
    PowerAt(w, k);
    MultipleDivides(k, p);
  }

  lemma PrefixPeriod(s: string, w: string, rest: string, p: nat)
    requires s == w + rest && HasPeriod(s, p) && p <= |w|
    ensures HasPeriod(w, p)
  {
    forall i, j | 0 <= i < j < |w| && j == i + p ensures w[i] == w[j] {
      assert s[i] == s[j];
    }
  }
}
