/** The Luhn check of card-like numbers (Annex B of ISO/IEC 7812-1). */
module Luhn {
  import opened Sums
  import opened Wrappers

  // A character for isdigit and int: no digit, a digit with its value, or a digit such as a superscript, which int
  // refuses. The table is the interpreter's; the results hold for any.
  datatype CharClass = Other | Decimal(value: int) | NoDecimal

  // int(c) for the digits of the text, in order; everything else is skipped.
  function DigitsOf(s: string, classify: char -> CharClass): seq<int> {
    if s == "" then []
    else (if classify(s[0]).Decimal? then [classify(s[0]).value] else []) + DigitsOf(s[1..], classify)
  }

  function Doubled(d: int): int {
    if 2 * d > 9 then 2 * d - 9 else 2 * d
  }

  function Weighed(d: int, double: bool): int {
    if double then Doubled(d) else d
  }

  // The standard's sum of the first k digits: from the right, every second digit is doubled; `double` says whether
  // digit k - 1 is.
  function RightSum(nums: seq<int>, k: nat, double: bool): int
    requires k <= |nums|
  {
    if k == 0 then 0 else Weighed(nums[k - 1], double) + RightSum(nums, k - 1, !double)
  }

  // A number of 13 to 16 digits whose sum, the check digit counted once, is a multiple of ten.
  predicate Accepted(nums: seq<int>) {
    13 <= |nums| <= 16 && RightSum(nums, |nums|, false) % 10 == 0
  }

  // The digits of a text are those of its characters, in order.
  lemma {:induction false} DigitsConcat(a: string, b: string, classify: char -> CharClass)
    ensures DigitsOf(a + b, classify) == DigitsOf(a, classify) + DigitsOf(b, classify)
  {
    if a == "" {
      assert a + b == b;
    } else {
      DigitsConcat(a[1..], b, classify);
      assert (a + b)[0] == a[0] && (a + b)[1..] == a[1..] + b;
      Associate(if classify(a[0]).Decimal? then [classify(a[0]).value] else [], DigitsOf(a[1..], classify), DigitsOf(b, classify));
    }
  }

  /** A digit character stands for its value, and every other character for nothing. */
  lemma DigitsOfOne(c: char, classify: char -> CharClass)
    ensures classify(c).Decimal? ==> DigitsOf([c], classify) == [classify(c).value]
    ensures !classify(c).Decimal? ==> DigitsOf([c], classify) == []
  {
    assert DigitsOf([c][1..], classify) == [];
  }

  // None stands for the ValueError of int.
  function Verdict(text: string, classify: char -> CharClass): Option<bool> {
    if exists i :: 0 <= i < |text| && classify(text[i]).NoDecimal? then None else Some(Accepted(DigitsOf(text, classify)))
  }

  // The loop runs from the left and doubles the indices with the parity of the length.
  method LuhnOk(text: string, classify: char -> CharClass) returns (ok: Option<bool>)
    ensures ok == Verdict(text, classify)
    ensures ok.None? <==> exists i :: 0 <= i < |text| && classify(text[i]).NoDecimal?
    ensures ok.Some? ==>
      var nums := DigitsOf(text, classify);
      ok.value <==> 13 <= |nums| <= 16 && RightSum(nums, |nums|, false) % 10 == 0
  {
    if exists i :: 0 <= i < |text| && classify(text[i]).NoDecimal? {
      return None;
    }
    var nums := DigitsOf(text, classify);
    if !(13 <= |nums| <= 16) {
      return Some(false);
    }
    var total, parity := 0, |nums| % 2;
    for i := 0 to |nums|
      // index i - 1 is doubled iff it has the parity of the length
      invariant total == RightSum(nums, i, i % 2 != parity)
    {
      var d := nums[i];
      if i % 2 == parity {
        d := d * 2;
        if d > 9 {
          d := d - 9;
        }
      }
      total := total + d;
    }
    ok := Some(total % 10 == 0);
  }

  predicate AllDigits(nums: seq<int>) {
    forall i :: 0 <= i < |nums| ==> 0 <= nums[i] <= 9
  }

  // Whether digit i is doubled when RightSum starts at digit k - 1 with the flag double.
  predicate DoubledAt(i: nat, k: nat, double: bool)
    requires i < k
  {
    if i == k - 1 then double else DoubledAt(i, k - 1, !double)
  }

  lemma {:induction false} NeighboursDiffer(i: nat, k: nat, double: bool)
    requires i + 1 < k
    ensures DoubledAt(i + 1, k, double) != DoubledAt(i, k, double)
  {
    if i + 2 < k {
      NeighboursDiffer(i, k - 1, !double);
    }
  }

  // Changing digit i changes the sum by the difference of the weighed digits.
  lemma {:induction false} ChangeOne(nums: seq<int>, k: nat, double: bool, i: nat, e: int)
    requires i < |nums| && k <= |nums|
    ensures RightSum(nums[i := e], k, double) == RightSum(nums, k, double)
      + if i < k then Weighed(e, DoubledAt(i, k, double)) - Weighed(nums[i], DoubledAt(i, k, double)) else 0
  {
    if k > 0 {
      ChangeOne(nums, k - 1, !double, i, e);
    }
  }

  // What Annex B counts for digit i of n: the digit, or the sum of the two digits of its double, every second digit from
  // the right beginning next to the check digit.
  function Counted(d: int, i: int, n: int): int {
    if (n - 1 - i) % 2 == 1 then 2 * d / 10 + 2 * d % 10 else d
  }

  lemma {:induction false} DoubledFromRight(i: nat, k: nat, double: bool)
    requires i < k
    ensures DoubledAt(i, k, double) <==> (if (k - 1 - i) % 2 == 0 then double else !double)
  {
    if i < k - 1 {
      DoubledFromRight(i, k - 1, !double);
      assert (k - 1 - i) % 2 == 0 <==> (k - 2 - i) % 2 != 0;
    }
  }

  lemma DoubledDigitSum(d: int)
    requires 0 <= d <= 9
    ensures Doubled(d) == 2 * d / 10 + 2 * d % 10
  {
  }

  /** The sum is that of Annex B: it is 0 for zeros, and each digit adds to it what Annex B counts for its place. */
  lemma AnnexBSum(nums: seq<int>, i: nat, e: int)
    requires AllDigits(nums) && i < |nums| && 0 <= e <= 9
    ensures RightSum(nums[i := e], |nums|, false) - RightSum(nums, |nums|, false)
      == Counted(e, i, |nums|) - Counted(nums[i], i, |nums|)
    ensures (forall j :: 0 <= j < |nums| ==> nums[j] == 0) ==> RightSum(nums, |nums|, false) == 0
  {
    ChangeOne(nums, |nums|, false, i, e);
    DoubledFromRight(i, |nums|, false);
    DoubledDigitSum(e);
    DoubledDigitSum(nums[i]);
    if forall j :: 0 <= j < |nums| ==> nums[j] == 0 {
      ZerosSum(nums, |nums|, false);
    }
  }

  lemma {:induction false} ZerosSum(nums: seq<int>, k: nat, double: bool)
    requires k <= |nums| && forall j :: 0 <= j < |nums| ==> nums[j] == 0
    ensures RightSum(nums, k, double) == 0
  {
    if k > 0 {
      ZerosSum(nums, k - 1, !double);
    }
  }

  lemma Multiples(a: int, b: int)
    requires a % 10 == 0 && -10 < b - a < 10
    ensures b % 10 == 0 <==> a == b
  {
  }

  /** Changing any one digit of an accepted number makes it rejected. */
  lemma SingleErrorDetected(nums: seq<int>, i: nat, e: int)
    requires AllDigits(nums) && i < |nums| && 0 <= e <= 9 && e != nums[i]
    requires Accepted(nums)
    ensures !Accepted(nums[i := e])
  {
    ChangeOne(nums, |nums|, false, i, e);
    Multiples(RightSum(nums, |nums|, false), RightSum(nums[i := e], |nums|, false));
  }

  // What swapping a and b next to each other does to the sum, up to sign.
  lemma SwapGap(a: int, b: int)
    requires 0 <= a <= 9 && 0 <= b <= 9
    ensures var gap := (Doubled(a) - a) - (Doubled(b) - b);
            -10 < gap < 10 && (gap == 0 <==> a == b || (a == 0 && b == 9) || (a == 9 && b == 0))
  {
  }

  /** Swapping two adjacent digits of an accepted number goes unnoticed iff they are equal, or 0 and 9. */
  lemma AdjacentSwapDetected(nums: seq<int>, i: nat)
    requires AllDigits(nums) && i + 1 < |nums| && Accepted(nums)
    ensures Accepted(nums[i := nums[i + 1]][i + 1 := nums[i]])
        <==> nums[i] == nums[i + 1] || (nums[i] == 0 && nums[i + 1] == 9) || (nums[i] == 9 && nums[i + 1] == 0)
  {
    var n, a, b := |nums|, nums[i], nums[i + 1];
    ChangeOne(nums, n, false, i, b);
    ChangeOne(nums[i := b], n, false, i + 1, a);
    NeighboursDiffer(i, n, false);
    SwapGap(a, b);
    Multiples(RightSum(nums, n, false), RightSum(nums[i := b][i + 1 := a], n, false));
  }

  lemma {:induction false} PrefixSum(nums: seq<int>, c: int, k: nat, double: bool)
    requires k <= |nums|
    ensures RightSum(nums + [c], k, double) == RightSum(nums, k, double)
  {
    if k > 0 {
      PrefixSum(nums, c, k - 1, !double);
    }
  }

  lemma Complement(c: int, sum: int)
    requires 0 <= c <= 9
    ensures (c + sum) % 10 == 0 <==> c == (10 - sum % 10) % 10
  {
  }

  function CheckDigit(prefix: seq<int>): int {
    (10 - RightSum(prefix, |prefix|, true) % 10) % 10
  }

  /** Every prefix of 12 to 15 digits has exactly one accepting check digit. */
  lemma UniqueCheckDigit(prefix: seq<int>)
    requires 12 <= |prefix| <= 15
    ensures 0 <= CheckDigit(prefix) <= 9
    ensures forall c :: 0 <= c <= 9 ==> (Accepted(prefix + [c]) <==> c == CheckDigit(prefix))
  {
    forall c | 0 <= c <= 9 ensures Accepted(prefix + [c]) <==> c == CheckDigit(prefix) {
      PrefixSum(prefix, c, |prefix|, true);
      Complement(c, RightSum(prefix, |prefix|, true));
      assert RightSum(prefix + [c], |prefix| + 1, false) == c + RightSum(prefix, |prefix|, true);
    }
  }
}
