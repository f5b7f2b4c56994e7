/** The mod-10 Luhn checksum of `luhnAlgorithm` (the check-digit scheme of
    ISO/IEC 7812-1, Annex B), computed the way the source computes it: each
    character is converted with JavaScript's `Number`, the values are split by
    the parity of their position counted from the right, each half is reduced
    to a sum, and the number is accepted when the total is divisible by 10. */
module Luhn {
  import opened Chars

  /** The JavaScript numbers that can arise here: integers, or NaN (what
      `Number` yields for a character that is neither a digit nor white space).
      NaN absorbs every sum and product and fails every comparison. */
  datatype Num = Finite(value: int) | NaN

  /** `Number(c)` for a one-character string: a digit gives its value, a white
      space character gives 0 (the string is empty once trimmed), anything
      else gives NaN. */
  function ToNumber(c: char): (n: Num)
    ensures n.Finite? ==> 0 <= n.value <= 9
    ensures IsDigit(c) ==> n == Finite(DigitValue(c))
    ensures IsJsWhiteSpace(c) ==> n == Finite(0)
    ensures !IsDigit(c) && !IsJsWhiteSpace(c) ==> n == NaN
  {
    if IsDigit(c) then Finite(DigitValue(c))
    else if IsJsWhiteSpace(c) then Finite(0)
    else NaN
  }

  /** A value `Number` gives for a decimal digit: an integer in 0..9. */
  predicate IsDigitValue(x: Num) {
    x.Finite? && 0 <= x.value <= 9
  }

  /** JavaScript `+` on the numbers above: NaN absorbs, and two integers
      add exactly. */
  function Add(a: Num, b: Num): Num {
    if a.Finite? && b.Finite? then Finite(a.value + b.value) else NaN
  }

  /** The two reducer callbacks of the source: the odd-position one adds the
      digit itself, the even-position one adds its adjusted double. */
  datatype Reducer = PlainSum | DoubledSum

  /** What a reducer adds for one value. For `DoubledSum` this is
      `doubled > 9 ? doubled - 9 : doubled` with `doubled = digit * 2`;
      `NaN > 9` is false, so NaN passes through. */
  function Term(reducer: Reducer, d: Num): (t: Num)
    ensures d.Finite? && 0 <= d.value <= 9 ==> t.Finite? && 0 <= t.value <= 9
    ensures d.NaN? ==> t.NaN?
  {
    match (reducer, d)
    case (_, NaN) => NaN
    case (PlainSum, Finite(v)) => d
    case (DoubledSum, Finite(v)) => if 2 * v > 9 then Finite(2 * v - 9) else Finite(2 * v)
  }

  /** `xs.reduce((sum, digit) => sum + term, 0)`: a left fold that starts
      from 0 and adds each value's term. */
  function Reduce(xs: seq<Num>, reducer: Reducer): (r: Num)
    ensures (forall x :: x in xs ==> IsDigitValue(x)) ==> r.Finite? && 0 <= r.value <= 9 * |xs|
  {
    if xs == [] then Finite(0)
    else
      var init := xs[..|xs| - 1];
      assert forall x :: x in init ==> x in xs;
      assert xs[|xs| - 1] in xs;
      Add(Reduce(init, reducer), Term(reducer, xs[|xs| - 1]))
  }

  /** `ds.filter((_, idx) => (ds.length - idx) % 2 === 1)` when `odd`, and
      `=== 0` otherwise: the elements whose position, counted from the right
      starting at 1, is odd (or even). The first element is at position |ds|.
      The filter only drops values, so the result holds values of `ds`. */
  function ByParity(ds: seq<Num>, odd: bool): (r: seq<Num>)
    ensures forall x :: x in r ==> x in ds
  {
    if ds == [] then []
    else (if (|ds| % 2 == 1) == odd then [ds[0]] else []) + ByParity(ds[1..], odd)
  }

  /** The source's `checksum`: the plain sum of the odd-position values plus
      the adjusted sum of the even-position values. For digit values it is a
      non-negative integer, so JavaScript's `%` on it agrees with Dafny's. */
  function Checksum(ds: seq<Num>): (r: Num)
    ensures (forall x :: x in ds ==> IsDigitValue(x)) ==> r.Finite? && 0 <= r.value
  {
    Add(Reduce(ByParity(ds, true), PlainSum), Reduce(ByParity(ds, false), DoubledSum))
  }

  /** The values `cardNumber.split('').map(Number)`. */
  function Values(s: string): (ds: seq<Num>)
    ensures |ds| == |s|
    ensures forall i :: 0 <= i < |s| ==> ds[i] == ToNumber(s[i])
  {
    if s == [] then [] else [ToNumber(s[0])] + Values(s[1..])
  }

  /*********************************************************************
   * Reference definition: the textbook Luhn sum over integer digits.
   *********************************************************************/

  /** What a digit at position `pos` (from the right, starting at 1)
      contributes: itself at an odd position, its double less 9 when the
      double exceeds 9 at an even position. */
  function Contribution(d: int, pos: nat): (c: int)
    ensures 0 <= d <= 9 ==> 0 <= c <= 9
  {
    if pos % 2 == 1 then d
    else if 2 * d > 9 then 2 * d - 9 else 2 * d
  }

  /** The Luhn sum of a digit sequence; `ds[0]` sits at position |ds|. It is
      never negative and at most 9 per digit. */
  function Total(ds: seq<int>): (t: int)
    ensures (forall i :: 0 <= i < |ds| ==> 0 <= ds[i] <= 9) ==> 0 <= t <= 9 * |ds|
  {
    if ds == [] then 0 else Contribution(ds[0], |ds|) + Total(ds[1..])
  }

  /** Every character converts to a number (none gives NaN). */
  predicate AllNumeric(s: string) {
    forall i :: 0 <= i < |s| ==> ToNumber(s[i]).Finite?
  }

  /** The integer values of a string all of whose characters convert. */
  function IntValues(s: string): (ds: seq<int>)
    requires AllNumeric(s)
    ensures |ds| == |s|
    ensures forall i :: 0 <= i < |s| ==> ds[i] == ToNumber(s[i]).value
  {
    if s == [] then [] else [ToNumber(s[0]).value] + IntValues(s[1..])
  }

  /** No value is NaN. */
  predicate AllFinite(ds: seq<Num>) {
    forall i :: 0 <= i < |ds| ==> ds[i].Finite?
  }

  /** The integers of values none of which is NaN. */
  function FiniteValues(ds: seq<Num>): (vs: seq<int>)
    requires AllFinite(ds)
    ensures |vs| == |ds|
    ensures forall i :: 0 <= i < |ds| ==> vs[i] == ds[i].value
  {
    if ds == [] then [] else [ds[0].value] + FiniteValues(ds[1..])
  }

  /** `luhnAlgorithm(cardNumber)`: `checksum % 10 === 0`. The checksum is
      NaN as soon as one character is neither a digit nor white space, and
      `NaN % 10 === 0` is false; otherwise it is the Luhn sum of the values,
      which is never negative, so JavaScript's `%` agrees with Dafny's. */
  function LuhnAlgorithm(s: string): (ok: bool)
    ensures ok <==> AllNumeric(s) && Total(IntValues(s)) % 10 == 0
  {
    ChecksumIsTotal(Values(s));
    ValuesBridge(s);
    var checksum := Checksum(Values(s));
    checksum.Finite? && checksum.value % 10 == 0
  }

  /*********************************************************************
   * Lemmas connecting the filter-and-reduce computation to the reference.
   *********************************************************************/

  lemma {:induction false} ReduceAppend(a: seq<Num>, b: seq<Num>, reducer: Reducer)
    ensures Reduce(a + b, reducer) == Add(Reduce(a, reducer), Reduce(b, reducer))
    decreases |b|
  {
    if b == [] {
      assert a + b == a;
    } else {
      var b' := b[..|b| - 1];
      assert (a + b)[..|a + b| - 1] == a + b';
      assert (a + b)[|a + b| - 1] == b[|b| - 1];
      ReduceAppend(a, b', reducer);
    }
  }

  lemma ReduceSingleton(x: Num, reducer: Reducer)
    ensures Reduce([x], reducer) == Add(Finite(0), Term(reducer, x))
  {
    assert [x][..0] == [];
  }

  /** Splitting the leftmost value off the filtered sequences. */
  lemma ByParityCons(ds: seq<Num>, odd: bool)
    requires ds != []
    ensures ByParity(ds, odd) == (if (|ds| % 2 == 1) == odd then [ds[0]] else []) + ByParity(ds[1..], odd)
  {
  }

  /** The odd-position filter keeps the ceiling of half the values, the
      even-position filter the floor. */
  lemma {:induction false} ByParityLength(ds: seq<Num>)
    ensures |ByParity(ds, true)| == (|ds| + 1) / 2
    ensures |ByParity(ds, false)| == |ds| / 2
  {
    if ds != [] {
      ByParityLength(ds[1..]);
    }
  }

  /** Where each filter starts: with o = 1 for the odd-position filter and 0
      for the even-position one, |ds| - 2|r| + o is 0 when the first value
      has the filter's parity and 1 otherwise. */
  lemma {:induction false} ByParityOffset(ds: seq<Num>, odd: bool)
    ensures |ds| - 2 * |ByParity(ds, odd)| + (if odd then 1 else 0) == if (|ds| % 2 == 1) == odd then 0 else 1
  {
    if ds != [] {
      ByParityOffset(ds[1..], odd);
      ByParityCons(ds, odd);
    }
  }

  /** Which values each filter keeps: every second value, ending at the last
      one for the odd-position filter and at the one before it for the
      even-position filter. The k-th kept value sits at index
      |ds| - 2|r| + 2k + o (see `ByParityOffset`). */
  lemma {:induction false} ByParityElements(ds: seq<Num>, odd: bool)
    ensures |ds| - 2 * |ByParity(ds, odd)| + (if odd then 1 else 0) == if (|ds| % 2 == 1) == odd then 0 else 1
    ensures var r := ByParity(ds, odd);
      forall k :: 0 <= k < |r| ==> r[k] == ds[|ds| - 2 * |r| + 2 * k + (if odd then 1 else 0)]
  {
    ByParityOffset(ds, odd);
    if ds != [] {
      var r := ByParity(ds, odd);
      var r' := ByParity(ds[1..], odd);
      var o := if odd then 1 else 0;
      ByParityElements(ds[1..], odd);
      ByParityCons(ds, odd);
      if (|ds| % 2 == 1) == odd {
        KeptFirstIndices(ds, r, r', o);
      } else {
        SkippedFirstIndices(ds, r, r', o);
      }
    }
  }

  /** The induction step of `ByParityElements` when the filter keeps `ds[0]`:
      `r` is `ds[0]` followed by `r'`, the filter's result on `ds[1..]`. */
  lemma KeptFirstIndices(ds: seq<Num>, r: seq<Num>, r': seq<Num>, o: int)
    requires ds != [] && r == [ds[0]] + r' && 0 <= o <= 1
    requires |ds| - 2 * |r| + o == 0 && |ds| - 1 - 2 * |r'| + o == 1
    requires forall k :: 0 <= k < |r'| ==> r'[k] == ds[1..][|ds| - 1 - 2 * |r'| + 2 * k + o]
    ensures forall k :: 0 <= k < |r| ==> r[k] == ds[|ds| - 2 * |r| + 2 * k + o]
  {
    forall k | 0 < k < |r| ensures r[k] == ds[|ds| - 2 * |r| + 2 * k + o] {
      assert r[k] == r'[k - 1] == ds[1..][2 * k - 1];
    }
  }

  /** The induction step of `ByParityElements` when the filter drops `ds[0]`:
      `r` is `r'`, the filter's result on `ds[1..]`. */
  lemma SkippedFirstIndices(ds: seq<Num>, r: seq<Num>, r': seq<Num>, o: int)
    requires ds != [] && r == r' && 0 <= o <= 1
    requires |ds| - 2 * |r| + o == 1 && |ds| - 1 - 2 * |r'| + o == 0
    requires forall k :: 0 <= k < |r'| ==> r'[k] == ds[1..][|ds| - 1 - 2 * |r'| + 2 * k + o]
    ensures forall k :: 0 <= k < |r| ==> r[k] == ds[|ds| - 2 * |r| + 2 * k + o]
  {
    forall k | 0 <= k < |r| ensures r[k] == ds[|ds| - 2 * |r| + 2 * k + o] {
      assert r[k] == ds[1..][2 * k];
    }
  }

  /** Reducing a sequence with a head in front adds the head's term. */
  lemma ReduceCons(h: seq<Num>, rest: seq<Num>, reducer: Reducer)
    requires |h| <= 1
    ensures Reduce(h + rest, reducer) == if h == [] then Reduce(rest, reducer) else Add(Term(reducer, h[0]), Reduce(rest, reducer))
  {
    ReduceAppend(h, rest, reducer);
    if h == [] {
      assert h + rest == rest;
    } else {
      ReduceSingleton(h[0], reducer);
    }
  }

  /** JavaScript `+` on these numbers is associative and commutative. */
  lemma AddAssocComm(a: Num, b: Num, c: Num)
    ensures Add(Add(a, b), c) == Add(a, Add(b, c))
    ensures Add(a, Add(b, c)) == Add(b, Add(a, c))
  {
  }

  /** Peeling the leftmost value off the checksum: it adds that value's term
      for its position |ds|. */
  lemma {:induction false} ChecksumCons(ds: seq<Num>)
    requires ds != []
    ensures Checksum(ds) == Add(if |ds| % 2 == 1 then Term(PlainSum, ds[0]) else Term(DoubledSum, ds[0]), Checksum(ds[1..]))
  {
    var odd := Reduce(ByParity(ds[1..], true), PlainSum);
    var even := Reduce(ByParity(ds[1..], false), DoubledSum);
    assert Checksum(ds[1..]) == Add(odd, even);
    ByParityCons(ds, true);
    ByParityCons(ds, false);
    if |ds| % 2 == 1 {
      ReduceCons([ds[0]], ByParity(ds[1..], true), PlainSum);
      ReduceCons([], ByParity(ds[1..], false), DoubledSum);
      assert Checksum(ds) == Add(Add(Term(PlainSum, ds[0]), odd), even);
      AddAssocComm(Term(PlainSum, ds[0]), odd, even);
    } else {
      ReduceCons([], ByParity(ds[1..], true), PlainSum);
      ReduceCons([ds[0]], ByParity(ds[1..], false), DoubledSum);
      assert Checksum(ds) == Add(odd, Add(Term(DoubledSum, ds[0]), even));
      AddAssocComm(odd, Term(DoubledSum, ds[0]), even);
    }
  }

  /** The term a reducer adds at position `pos` is the reference
      contribution there, or NaN for NaN. */
  lemma TermIsContribution(d: Num, pos: nat)
    ensures Term(if pos % 2 == 1 then PlainSum else DoubledSum, d)
         == if d.Finite? then Finite(Contribution(d.value, pos)) else NaN
  {
  }

  /** The checksum summed value by value from the left: each value adds the
      term its position |ds| calls for. */
  function LeftToRight(ds: seq<Num>): Num {
    if ds == [] then Finite(0)
    else Add(Term(if |ds| % 2 == 1 then PlainSum else DoubledSum, ds[0]), LeftToRight(ds[1..]))
  }

  /** Filtering by parity and reducing each half adds up the same terms as
      going through the values from the left. */
  lemma {:induction false} ChecksumIsLeftToRight(ds: seq<Num>)
    ensures Checksum(ds) == LeftToRight(ds)
  {
    if ds == [] {
      assert ByParity(ds, true) == [] && ByParity(ds, false) == [];
    } else {
      ChecksumCons(ds);
      ChecksumIsLeftToRight(ds[1..]);
    }
  }

  /** The filter-and-reduce checksum of values none of which is NaN is the
      reference Luhn sum of their integers. */
  lemma ChecksumOfFinite(ds: seq<Num>)
    requires AllFinite(ds)
    ensures Checksum(ds) == Finite(Total(FiniteValues(ds)))
  {
    ChecksumIsLeftToRight(ds);
    LeftToRightOfFinite(ds);
  }

  lemma {:induction false} LeftToRightOfFinite(ds: seq<Num>)
    requires AllFinite(ds)
    ensures LeftToRight(ds) == Finite(Total(FiniteValues(ds)))
  {
    if ds != [] {
      assert ds[0].Finite?;
      TermIsContribution(ds[0], |ds|);
      TotalOfFiniteCons(ds);
      LeftToRightOfFinite(ds[1..]);
    }
  }

  /** Peeling the leftmost value off the reference sum of finite values. */
  lemma TotalOfFiniteCons(ds: seq<Num>)
    requires ds != [] && AllFinite(ds)
    ensures AllFinite(ds[1..])
    ensures Total(FiniteValues(ds)) == Contribution(ds[0].value, |ds|) + Total(FiniteValues(ds[1..]))
  {
    var rest := ds[1..];
    assert AllFinite(rest) by {
      forall i | 0 <= i < |rest| ensures rest[i].Finite? {
        assert rest[i] == ds[i + 1];
      }
    }
    var vs := FiniteValues(ds);
    assert vs[1..] == FiniteValues(rest);
  }

  /** One NaN value makes the whole checksum NaN. */
  lemma ChecksumOfNaN(ds: seq<Num>)
    requires !AllFinite(ds)
    ensures Checksum(ds) == NaN
  {
    ChecksumIsLeftToRight(ds);
    LeftToRightOfNaN(ds);
  }

  lemma {:induction false} LeftToRightOfNaN(ds: seq<Num>)
    requires !AllFinite(ds)
    ensures LeftToRight(ds) == NaN
  {
    var rest := ds[1..];
    TermIsContribution(ds[0], |ds|);
    if ds[0].Finite? {
      var i :| 0 <= i < |ds| && ds[i].NaN?;
      assert rest[i - 1] == ds[i];
      LeftToRightOfNaN(rest);
    }
  }

  /** The filter-and-reduce checksum is the reference Luhn sum of the values
      when none is NaN, and NaN otherwise. */
  lemma ChecksumIsTotal(ds: seq<Num>)
    ensures Checksum(ds) == if AllFinite(ds) then Finite(Total(FiniteValues(ds))) else NaN
  {
    if AllFinite(ds) {
      ChecksumOfFinite(ds);
    } else {
      ChecksumOfNaN(ds);
    }
  }

  /** The values of a string are all finite exactly when every character
      converts, and their integers are then the string's `IntValues`. */
  lemma ValuesBridge(s: string)
    ensures AllFinite(Values(s)) <==> AllNumeric(s)
    ensures AllNumeric(s) ==> FiniteValues(Values(s)) == IntValues(s)
  {
  }

  /*********************************************************************
   * Properties of the check.
   *********************************************************************/

  /** On a string of digits the check is exactly the textbook Luhn test. */
  lemma DigitStringCheck(s: string)
    requires AllDigits(s)
    ensures AllNumeric(s)
    ensures LuhnAlgorithm(s) <==> Total(IntValues(s)) % 10 == 0
  {
  }

  /** A character that is neither a digit nor white space makes `Number`
      yield NaN, and the check fails. */
  lemma NonNumericFails(s: string, i: nat)
    requires i < |s| && !IsDigit(s[i]) && !IsJsWhiteSpace(s[i])
    ensures !LuhnAlgorithm(s)
  {
    assert ToNumber(s[i]).NaN?;
  }

  /** The empty string passes: its checksum is 0. */
  lemma EmptyPasses()
    ensures LuhnAlgorithm("")
  {
    assert IntValues("") == [];
    assert Total(IntValues("")) == 0;
  }

  /** Zeros contribute nothing, at any position. */
  lemma {:induction false} ZerosTotal(ds: seq<int>)
    requires forall i :: 0 <= i < |ds| ==> ds[i] == 0
    ensures Total(ds) == 0
  {
    if ds != [] {
      ZerosTotal(ds[1..]);
    }
  }

  /** White space converts to 0, so a string made only of white space has
      checksum 0 and passes. */
  lemma WhiteSpaceOnlyPasses(s: string)
    requires forall i :: 0 <= i < |s| ==> IsJsWhiteSpace(s[i])
    ensures LuhnAlgorithm(s)
  {
    assert AllNumeric(s);
    ZerosTotal(IntValues(s));
  }

  /** The adjusted doubling is a permutation of 0..9 at even positions and the
      identity at odd ones, so distinct digits contribute distinctly. */
  lemma ContributionInjective(d1: int, d2: int, pos: nat)
    requires 0 <= d1 <= 9 && 0 <= d2 <= 9 && d1 != d2
    ensures Contribution(d1, pos) != Contribution(d2, pos)
  {
  }

  /** Two sequences of the same length that differ only at index `i` have
      Luhn sums that differ by the two contributions at that position. */
  lemma {:induction false} TotalDiffAt(a: seq<int>, b: seq<int>, i: nat)
    requires |a| == |b| && i < |a|
    requires forall j :: 0 <= j < |a| && j != i ==> a[j] == b[j]
    ensures Total(a) - Total(b) == Contribution(a[i], |a| - i) - Contribution(b[i], |b| - i)
  {
    if i == 0 {
      assert a[1..] == b[1..];
    } else {
      forall j | 0 <= j < |a| - 1 && j != i - 1 ensures a[1..][j] == b[1..][j] {
        assert a[1..][j] == a[j + 1] && b[1..][j] == b[j + 1];
      }
      TotalDiffAt(a[1..], b[1..], i - 1);
      assert a[1..][i - 1] == a[i] && b[1..][i - 1] == b[i];
      assert |a[1..]| - (i - 1) == |a| - i;
      assert a[0] == b[0];
      assert Total(a) == Contribution(a[0], |a|) + Total(a[1..]);
      assert Total(b) == Contribution(b[0], |b|) + Total(b[1..]);
    }
  }

  /** Changing one digit of a digit sequence whose Luhn sum is a multiple of
      10 moves the sum off the multiples of 10. */
  lemma SingleDigitChangeBreaksTotal(a: seq<int>, b: seq<int>, i: nat)
    requires |a| == |b| && i < |a| && a[i] != b[i]
    requires 0 <= a[i] <= 9 && 0 <= b[i] <= 9
    requires forall j :: 0 <= j < |a| && j != i ==> a[j] == b[j]
    requires Total(a) % 10 == 0
    ensures Total(b) % 10 != 0
  {
    TotalDiffAt(a, b, i);
    ContributionInjective(a[i], b[i], |a| - i);
    ShiftBreaksMultiple(Total(a), Total(b));
  }

  /** Moving a multiple of 10 by a nonzero amount under 10 leaves the
      multiples of 10. */
  lemma ShiftBreaksMultiple(x: int, y: int)
    requires x % 10 == 0 && x != y && -9 <= x - y <= 9
    ensures y % 10 != 0
  {
    assert x == 10 * (x / 10);
    assert y == 10 * (y / 10) + y % 10;
  }

  /** Digit strings that differ in one character have value sequences that
      differ in exactly that place. */
  lemma ValuesDifferAt(s: string, t: string, i: nat)
    requires AllDigits(s) && AllDigits(t) && |s| == |t| && i < |s|
    requires s[i] != t[i]
    requires forall j :: 0 <= j < |s| && j != i ==> s[j] == t[j]
    ensures AllNumeric(s) && AllNumeric(t)
    ensures IntValues(s)[i] != IntValues(t)[i]
    ensures 0 <= IntValues(s)[i] <= 9 && 0 <= IntValues(t)[i] <= 9
    ensures forall j :: 0 <= j < |s| && j != i ==> IntValues(s)[j] == IntValues(t)[j]
  {
    assert AllNumeric(s) && AllNumeric(t);
    forall j | 0 <= j < |s| && j != i
      ensures IntValues(s)[j] == IntValues(t)[j]
    {
      assert s[j] == t[j];
    }
  }

  /** The Luhn check detects every single-digit error: changing one digit of
      an accepted digit string yields a rejected one. */
  lemma SingleDigitErrorDetected(s: string, t: string, i: nat)
    requires AllDigits(s) && AllDigits(t) && |s| == |t| && i < |s|
    requires s[i] != t[i]
    requires forall j :: 0 <= j < |s| && j != i ==> s[j] == t[j]
    requires LuhnAlgorithm(s)
    ensures !LuhnAlgorithm(t)
  {
    ValuesDifferAt(s, t, i);
    SingleDigitChangeBreaksTotal(IntValues(s), IntValues(t), i);
  }

  /** The Luhn sum of the digits of the source's usage example, suffix by
      suffix from the rightmost digit leftwards. */
  lemma ExampleTotal(a: seq<int>)
    requires |a| == 16
    requires a[0] == 4 && a[1] == 5 && a[2] == 3 && a[3] == 2 && a[4] == 6 && a[5] == 3 && a[6] == 3 && a[7] == 8
    requires a[8] == 5 && a[9] == 4 && a[10] == 6 && a[11] == 1 && a[12] == 9 && a[13] == 8 && a[14] == 3 && a[15] == 7
    ensures Total(a) == 80
  {
    ExampleTotalTail(a);
    TotalStep(a, 7, 39, 8);
    TotalStep(a, 6, 47, 6);
    TotalStep(a, 5, 53, 3);
    TotalStep(a, 4, 56, 3);
    TotalStep(a, 3, 59, 2);
    TotalStep(a, 2, 61, 6);
    TotalStep(a, 1, 67, 5);
    TotalStep(a, 0, 72, 8);
    assert a[0..] == a;
  }

  /** The right half of the example: its last eight digits sum to 39. */
  lemma ExampleTotalTail(a: seq<int>)
    requires |a| == 16
    requires a[8] == 5 && a[9] == 4 && a[10] == 6 && a[11] == 1 && a[12] == 9 && a[13] == 8 && a[14] == 3 && a[15] == 7
    ensures Total(a[8..]) == 39
  {
    assert a[16..] == [];
    TotalStep(a, 15, 0, 7);
    TotalStep(a, 14, 7, 6);
    TotalStep(a, 13, 13, 8);
    TotalStep(a, 12, 21, 9);
    TotalStep(a, 11, 30, 1);
    TotalStep(a, 10, 31, 3);
    TotalStep(a, 9, 34, 4);
    TotalStep(a, 8, 38, 1);
  }

  /** One step of the example: the digit at index `k` adds `c` to the Luhn
      sum of the suffix after it. */
  lemma TotalStep(a: seq<int>, k: nat, total: int, c: int)
    requires k < |a| && Total(a[k + 1..]) == total && Contribution(a[k], |a| - k) == c
    ensures Total(a[k..]) == total + c
  {
    assert a[k..][1..] == a[k + 1..];
  }

  lemma ExampleValues(s: string)
    requires s == "4532633854619837"
    ensures AllNumeric(s)
    ensures IntValues(s) == [4, 5, 3, 2, 6, 3, 3, 8, 5, 4, 6, 1, 9, 8, 3, 7]
  {
    assert AllDigits(s);
  }

  /** The number from the source's usage example passes the check; with its
      last digit changed to 0 it fails. */
  lemma ExampleNumbers(s: string, t: string)
    requires s == "4532633854619837" && t == "4532633854619830"
    ensures LuhnAlgorithm(s)
    ensures !LuhnAlgorithm(t)
  {
    ExampleValues(s);
    ExampleTotal(IntValues(s));
    assert AllDigits(t) && |s| == |t|;
    assert forall j :: 0 <= j < |s| && j != 15 ==> s[j] == t[j];
    SingleDigitErrorDetected(s, t, 15);
  }
}
