/** `pad3`, `range` and `arrayChunks` (src/helpers.ts and src/lib/helpers.ts). */
module Helpers {
  import opened Decimal

  /** `s.padStart(width, '0')`: left-pads with zeros; a string already that long is unchanged. */
  function PadStartZeros(s: string, width: nat): (r: string)
    ensures |s| >= width ==> r == s
    ensures |s| < width ==> r == Zeros(width - |s|) + s
  {
    if |s| >= width then s else Zeros(width - |s|) + s
  }

  /**
   * `pad3(n)`: the decimal form of `n`, left-padded with '0' to three characters.
   * The result is all digits, reads back as `n`, and is exactly three
   * characters long iff `n < 1000`.
   */
  function Pad3(n: nat): (r: string)
    ensures AllDigits(r) && DigitsValue(r) == n
    ensures |r| >= 3 && (|r| == 3 <==> n < 1000)
  {
    Pad3Digits(n);
    NatToStringLength(n);
    PadStartZeros(NatToString(n), 3)
  }

  /** The padding is nothing but zeros in front of the decimal form of `n`, and only when that form is shorter than three. */
  lemma Pad3Shape(n: nat)
    ensures var r, d := Pad3(n), NatToString(n);
      && |r| == (if |d| >= 3 then |d| else 3)
      && r[|r| - |d|..] == d
      && forall i :: 0 <= i < |r| - |d| ==> r[i] == '0'
  {
    var d := NatToString(n);
    if |d| < 3 {
      assert Pad3(n)[3 - |d|..] == d;
    }
  }

  lemma Pad3Digits(n: nat)
    ensures AllDigits(PadStartZeros(NatToString(n), 3))
    ensures DigitsValue(PadStartZeros(NatToString(n), 3)) == n
  {
    var d := NatToString(n);
    NatToStringValue(n);
    if |d| < 3 {
      LeadingZerosValue(3 - |d|, d);
    }
  }

  /** `range(start, size)`: the `size` consecutive integers from `start` upward. */
  function Range(start: int, size: nat): (r: seq<int>)
    ensures |r| == size
    ensures forall i :: 0 <= i < size ==> r[i] == start + i
    decreases size
  {
    if size == 0 then [] else [start] + Range(start + 1, size - 1)
  }

  function Concat<T>(chunks: seq<seq<T>>): seq<T> {
    if |chunks| == 0 then [] else Concat(chunks[..|chunks| - 1]) + chunks[|chunks| - 1]
  }

  /** Whole multiples of `k` that lie between `(m - 1) * k` and `m * k` determine a ceiling quotient. */
  lemma CeilingQuotient(n: nat, k: nat, m: nat)
    requires k > 0
    requires n <= m * k
    requires m == 0 || (m - 1) * k < n
    ensures m == (n + k - 1) / k
  {
    var x := n + k - 1;
    assert m * k <= x < m * k + k by {
      if m > 0 {
        assert (m - 1) * k == m * k - k;
      }
    }
    var q, r := x / k, x % k;
    assert x == q * k + r && 0 <= r < k;
    MultiplyGap(q, m, k);
    MultiplyGap(m, q, k);
  }

  lemma MultiplyGap(a: nat, b: nat, k: nat)
    ensures a < b ==> a * k + k <= b * k
  {
    if a < b {
      assert (a + 1) * k == a * k + k;
      MultiplyMonotone(a + 1, b, k);
    }
  }

  lemma {:induction false} MultiplyMonotone(a: nat, b: nat, k: nat)
    requires a <= b
    ensures a * k <= b * k
    decreases b - a
  {
    if a < b {
      MultiplyMonotone(a, b - 1, k);
      assert b * k == (b - 1) * k + k;
    }
  }

  /**
   * `arrayChunks(chunkSize, array)`: cuts `array` into consecutive slices of
   * `chunkSize` elements, the last one possibly shorter. With `chunkSize == 0`
   * the loop of the source never advances, so the size must be positive.
   */
  method ArrayChunks<T>(chunkSize: nat, items: seq<T>) returns (chunks: seq<seq<T>>)
    requires chunkSize > 0
    ensures Concat(chunks) == items
    ensures forall c :: c in chunks ==> 0 < |c| <= chunkSize
    ensures forall k :: 0 <= k < |chunks| - 1 ==> |chunks[k]| == chunkSize
    ensures |chunks| == (|items| + chunkSize - 1) / chunkSize
  {
    chunks := [];
    var i := 0;
    var j := |items|;
    while i < j
      invariant j == |items|
      invariant i == |chunks| * chunkSize
      invariant Concat(chunks) == items[..if i <= j then i else j]
      invariant |chunks| > 0 ==> (|chunks| - 1) * chunkSize < j
      invariant forall c :: c in chunks ==> 0 < |c| <= chunkSize
      invariant forall k :: 0 <= k < |chunks| - 1 ==> |chunks[k]| == chunkSize
      invariant |chunks| > 0 && i <= j ==> |chunks[|chunks| - 1]| == chunkSize
      decreases j - i
    {
      var end := if i + chunkSize < j then i + chunkSize else j;
      var slice := items[i..end];
      ghost var before := chunks;
      chunks := chunks + [slice];
      assert chunks[..|chunks| - 1] == before;
      assert items[..i] + slice == items[..end];
      assert |before| * chunkSize + chunkSize == |chunks| * chunkSize by {
        MultiplySuccessor(|before|, chunkSize);
      }
      i := i + chunkSize;
    }
    CeilingQuotient(|items|, chunkSize, |chunks|);
  }

  lemma MultiplySuccessor(m: nat, k: nat)
    ensures (m + 1) * k == m * k + k
  {
  }
}
