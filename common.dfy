/**
 * Shared vocabulary for the whole model: optional values and results, the
 * JavaScript and Python number operations the application relies on, and a
 * few sequence and string utilities.
 */
module Common {

  datatype Option<T> = None | Some(value: T)

  datatype Result<T, E> = Ok(value: T) | Err(error: E)
  {
    predicate IsOk() { Ok? }
  }

  // ---------------------------------------------------------------- numbers

  function Abs(x: int): (r: nat)
    ensures r == x || r == -x
  {
    if x < 0 then -x else x
  }

  function AbsR(x: real): (r: real)
    ensures r >= 0.0 && (r == x || r == -x)
  {
    if x < 0.0 then -x else x
  }

  function Max(a: int, b: int): (r: int)
    ensures r >= a && r >= b && (r == a || r == b)
  {
    if a >= b then a else b
  }

  function Min(a: int, b: int): (r: int)
    ensures r <= a && r <= b && (r == a || r == b)
  {
    if a <= b then a else b
  }

  /**
   * `Math.max` and `Math.min` on the `real` numbers the analytics work in.
   * Dafny has no ordering that a generic function could take for both
   * `int` and `real`, so the integer pair above has this twin.
   */
  function MaxR(a: real, b: real): (r: real)
    ensures r >= a && r >= b && (r == a || r == b)
  {
    if a >= b then a else b
  }

  function MinR(a: real, b: real): (r: real)
    ensures r <= a && r <= b && (r == a || r == b)
  {
    if a <= b then a else b
  }

  /** JavaScript `x || 0` on a number that may be missing: missing counts as zero. */
  function OrZero(x: Option<int>): (r: int)
    ensures x.Some? ==> r == x.value
    ensures x.None? ==> r == 0
  {
    if x.Some? then x.value else 0
  }

  /** JavaScript `Math.floor` on a real. */
  function Floor(x: real): (r: int)
    ensures r as real <= x < r as real + 1.0
  {
    x.Floor
  }

  /** JavaScript `Math.round`: the nearest integer, halves rounded up. */
  function JsRound(x: real): (r: int)
    ensures r as real - 0.5 <= x < r as real + 0.5
  {
    (x + 0.5).Floor
  }

  /** Python `int(x)` and JavaScript `Math.trunc`: truncation toward zero. */
  function Trunc(x: real): (r: int)
    ensures AbsR(r as real) <= AbsR(x) < AbsR(r as real) + 1.0
    ensures x >= 0.0 ==> r >= 0
    ensures x <= 0.0 ==> r <= 0
  {
    if x >= 0.0 then x.Floor else -((-x).Floor)
  }

  /** `Math.ceil(a / b)` for a non-negative numerator and positive divisor. */
  function CeilDiv(a: int, b: int): (r: int)
    requires a >= 0 && b > 0
    ensures r >= 0
    ensures r * b >= a && (r - 1) * b < a
  {
    (a + b - 1) / b
  }

  /** `x.toString().padStart(2, '0')` for a natural number. */
  function Pad2(n: nat): (s: string)
    ensures |s| >= 2
    ensures n < 100 ==> |s| == 2
  {
    if n < 10 then "0" + NatToString(n) else NatToString(n)
  }

  /** Below 100 the padded text is the tens digit and the units digit. */
  lemma Pad2Digits(n: nat)
    requires n < 100
    ensures Pad2(n) == [DigitChar(n / 10), DigitChar(n % 10)]
  {
    if n < 10 {
      assert DigitChar(0) == '0';
    } else {
      assert NatToString(n) == NatToString(n / 10) + [DigitChar(n % 10)];
    }
  }

  /** Below 100 the padded text determines the number. */
  lemma Pad2Injective(a: nat, b: nat)
    requires a < 100 && b < 100 && Pad2(a) == Pad2(b)
    ensures a == b
  {
    Pad2Digits(a);
    Pad2Digits(b);
    assert DigitChar(a / 10) == DigitChar(b / 10) && DigitChar(a % 10) == DigitChar(b % 10);
  }

  /** `x.toString().padStart(3, '0')` for a natural number. */
  function Pad3(n: nat): (s: string)
    ensures |s| >= 3
    ensures n < 1000 ==> |s| == 3
  {
    if n < 10 then "00" + NatToString(n) else if n < 100 then "0" + NatToString(n) else NatToString(n)
  }

  function DigitChar(d: nat): (c: char)
    requires d < 10
    ensures '0' <= c <= '9'
    ensures c as int == '0' as int + d
  {
    ['0', '1', '2', '3', '4', '5', '6', '7', '8', '9'][d]
  }

  /** Decimal rendering of a natural number, without leading zeros. */
  function NatToString(n: nat): (s: string)
    ensures |s| >= 1
    ensures n < 10 ==> |s| == 1
    ensures 10 <= n < 100 ==> |s| == 2
    ensures 100 <= n ==> |s| >= 3
    ensures 100 <= n < 1000 ==> |s| == 3
    ensures forall i :: 0 <= i < |s| ==> '0' <= s[i] <= '9'
  {
    if n < 10 then [DigitChar(n)] else NatToString(n / 10) + [DigitChar(n % 10)]
  }

  /** `n.toString()` for an integer. */
  function IntString(n: int): (s: string)
    ensures |s| >= 1
    ensures n >= 0 ==> s == NatToString(n)
  {
    if n < 0 then "-" + NatToString(-n) else NatToString(n)
  }

  // -------------------------------------------------------------- sequences

  lemma AppendToEmpty<T>(s: seq<T>)
    ensures [] + s == s
  {
  }

  lemma PrefixStep<T>(s: seq<T>, k: int)
    requires 0 <= k < |s|
    ensures s[..k + 1] == s[..k] + [s[k]]
  {
  }

  lemma WholePrefix<T>(s: seq<T>)
    ensures s[..|s|] == s
  {
  }

  lemma PrefixThenSlice<T>(s: seq<T>, a: int, b: int)
    requires 0 <= a <= b <= |s|
    ensures s[..a] + s[a..b] == s[..b]
  {
  }

  lemma TailOfSnoc<T>(s: seq<T>, x: T)
    requires s != []
    ensures (s + [x])[1..] == s[1..] + [x]
  {
  }

  /** Moving the head of `s` onto the end of `done`. */
  lemma ShiftHead<T>(done: seq<T>, s: seq<T>)
    requires s != []
    ensures done + [s[0]] + s[1..] == done + s
  {
    assert [s[0]] + s[1..] == s;
  }

  /** `Array.prototype.filter`. */
  function Filter<T(!new)>(s: seq<T>, p: T -> bool): (r: seq<T>)
    ensures |r| <= |s|
    ensures forall x :: x in r <==> x in s && p(x)
  {
    if s == [] then [] else (if p(s[0]) then [s[0]] else []) + Filter(s[1..], p)
  }

  lemma {:induction false} FilterAppend<T(!new)>(a: seq<T>, b: seq<T>, p: T -> bool)
    ensures Filter(a + b, p) == Filter(a, p) + Filter(b, p)
  {
    if a == [] {
      assert a + b == b;
    } else {
      assert (a + b)[1..] == a[1..] + b;
      FilterAppend(a[1..], b, p);
    }
  }

  /** Filtering keeps any relation that held between earlier and later elements. */
  lemma {:induction false} FilterOrdered<T(!new)>(s: seq<T>, p: T -> bool, rel: (T, T) -> bool)
    requires forall i, j :: 0 <= i < j < |s| ==> rel(s[i], s[j])
    ensures forall i, j :: 0 <= i < j < |Filter(s, p)| ==> rel(Filter(s, p)[i], Filter(s, p)[j])
  {
    if s != [] {
      var t := Filter(s[1..], p);
      assert forall i, j :: 0 <= i < j < |s[1..]| ==> rel(s[1..][i], s[1..][j]) by {
        forall i, j | 0 <= i < j < |s[1..]| ensures rel(s[1..][i], s[1..][j]) {
          assert s[1..][i] == s[i + 1] && s[1..][j] == s[j + 1];
        }
      }
      FilterOrdered(s[1..], p, rel);
      if p(s[0]) {
        var r := [s[0]] + t;
        forall i, j | 0 <= i < j < |r| ensures rel(r[i], r[j]) {
          if i == 0 {
            assert r[j] in t;
            var k :| 0 <= k < |s[1..]| && s[1..][k] == r[j];
            assert s[k + 1] == r[j];
          } else {
            assert r[i] == t[i - 1] && r[j] == t[j - 1];
          }
        }
      }
    }
  }

  /** `Array.prototype.reduce((sum, x) => sum + f(x), 0)`. */
  function SumOf<T>(s: seq<T>, f: T -> int): int
  {
    if s == [] then 0 else f(s[0]) + SumOf(s[1..], f)
  }

  lemma {:induction false} SumOfAppend<T>(a: seq<T>, b: seq<T>, f: T -> int)
    ensures SumOf(a + b, f) == SumOf(a, f) + SumOf(b, f)
  {
    if a == [] {
      assert a + b == b;
    } else {
      assert (a + b)[1..] == a[1..] + b;
      SumOfAppend(a[1..], b, f);
    }
  }

  lemma {:induction false} SumOfNonNegative<T>(s: seq<T>, f: T -> int)
    requires forall x :: x in s ==> f(x) >= 0
    ensures SumOf(s, f) >= 0
  {
    if s != [] {
      assert s[0] in s;
      assert forall x :: x in s[1..] ==> x in s;
      SumOfNonNegative(s[1..], f);
    }
  }

  /** A sequence without repeated elements. */
  predicate NoDup<T(==)>(s: seq<T>)
  {
    forall i, j :: 0 <= i < j < |s| ==> s[i] != s[j]
  }

  /** `list.filter(y => y !== x)`. */
  function Remove<T(==,!new)>(s: seq<T>, x: T): (r: seq<T>)
    ensures x !in r
    ensures forall y :: y != x ==> (y in r <==> y in s)
    ensures |r| <= |s|
    ensures x !in s ==> r == s
  {
    if s == [] then [] else (if s[0] == x then [] else [s[0]]) + Remove(s[1..], x)
  }

  lemma {:induction false} RemoveKeepsNoDup<T(!new)>(s: seq<T>, x: T)
    requires NoDup(s)
    ensures NoDup(Remove(s, x))
  {
    if s != [] {
      var r := Remove(s[1..], x);
      RemoveKeepsNoDup(s[1..], x);
      if s[0] != x {
        forall j | 0 <= j < |s| - 1
          ensures s[1..][j] != s[0]
        {
          assert s[1..][j] == s[j + 1];
        }
        assert s[0] !in r;
        var q := [s[0]] + r;
        assert Remove(s, x) == q;
        forall i, j | 0 <= i < j < |q|
          ensures q[i] != q[j]
        {
          assert q[j] == r[j - 1];
          if i == 0 {
            assert r[j - 1] in r;
          } else {
            assert q[i] == r[i - 1];
          }
        }
      }
    }
  }

  lemma {:induction false} RemoveAppendAbsent<T(!new)>(s: seq<T>, x: T)
    requires x !in s
    ensures Remove(s + [x], x) == s
  {
    if s == [] {
      assert Remove([x], x) == [] + Remove([], x);
    } else {
      assert (s + [x])[1..] == s[1..] + [x];
      RemoveAppendAbsent(s[1..], x);
    }
  }

  /** `prev.includes(x) ? prev.filter(y => y !== x) : [...prev, x]`: a present element is removed, any other appended. */
  function Toggle<T(==,!new)>(prev: seq<T>, x: T): (r: seq<T>)
    ensures x in r <==> x !in prev
    ensures forall y :: y != x ==> (y in r <==> y in prev)
  {
    if x in prev then Remove(prev, x) else prev + [x]
  }

  /** Toggling never introduces a repeated element. */
  lemma ToggleKeepsNoDup<T(!new)>(prev: seq<T>, x: T)
    requires NoDup(prev)
    ensures NoDup(Toggle(prev, x))
  {
    if x in prev {
      RemoveKeepsNoDup(prev, x);
    } else {
      var r := prev + [x];
      forall i, j | 0 <= i < j < |r|
        ensures r[i] != r[j]
      {
        if j == |prev| {
          assert r[i] == prev[i];
        } else {
          assert r[i] == prev[i] && r[j] == prev[j];
        }
      }
    }
  }

  /** Adding an absent element and toggling it again restores the list exactly. */
  lemma AddThenToggleRestores<T(!new)>(prev: seq<T>, x: T)
    requires x !in prev
    ensures Toggle(Toggle(prev, x), x) == prev
  {
    RemoveAppendAbsent(prev, x);
  }

  /** Toggling twice always restores which elements are present. */
  lemma ToggleTwiceSameMembers<T(!new)>(prev: seq<T>, x: T, y: T)
    ensures y in Toggle(Toggle(prev, x), x) <==> y in prev
  {
  }

  /** The positions of the present elements, in order. */
  function Present<T>(s: seq<Option<T>>): (r: seq<nat>)
    ensures |r| <= |s|
    ensures forall k :: 0 <= k < |r| ==> r[k] < |s| && s[r[k]].Some?
  {
    if s == [] then []
    else
      var d := Present(s[..|s| - 1]);
      if s[|s| - 1].Some? then d + [|s| - 1] else d
  }

  /** One more element adds its position exactly when it is present. */
  lemma PresentSnoc<T>(s: seq<Option<T>>, x: Option<T>)
    ensures Present(s + [x]) == if x.Some? then Present(s) + [|s|] else Present(s)
  {
    assert (s + [x])[..|s|] == s;
  }

  /** Every present position is listed, in increasing order. */
  lemma {:induction false} PresentExactly<T>(s: seq<Option<T>>)
    ensures forall i :: 0 <= i < |s| && s[i].Some? ==> i in Present(s)
    ensures forall a, b :: 0 <= a < b < |Present(s)| ==> Present(s)[a] < Present(s)[b]
    decreases |s|
  {
    if s != [] {
      var init := s[..|s| - 1];
      PresentExactly(init);
      forall i | 0 <= i < |s| - 1 && s[i].Some?
        ensures i in Present(s)
      {
        assert init[i] == s[i];
      }
    }
  }

  /** How `Array.prototype.slice` resolves an index: negative counts from the end, then clamped. */
  function SliceIndex(i: int, len: nat): (r: nat)
    ensures r <= len
    ensures 0 <= i <= len ==> r == i
    ensures i > len ==> r == len
  {
    if i < 0 then (if len + i < 0 then 0 else len + i) else if i > len then len else i
  }

  /** `s.slice(start, end)`. */
  function JsSlice<T>(s: seq<T>, start: int, end: int): (r: seq<T>)
    ensures |r| <= |s|
    ensures 0 <= start <= end ==> r == s[Min(start, |s|)..Min(end, |s|)]
  {
    var a := SliceIndex(start, |s|);
    var b := SliceIndex(end, |s|);
    if a <= b then s[a..b] else []
  }

  /** `acc.some(y => key(y) === k)`. */
  predicate HasKey<T, K(==)>(acc: seq<T>, key: T -> K, k: K)
  {
    exists i :: 0 <= i < |acc| && key(acc[i]) == k
  }

  /** No two elements share a key. */
  predicate KeysUnique<T, K(==)>(s: seq<T>, key: T -> K)
  {
    forall i, j :: 0 <= i < j < |s| ==> key(s[i]) != key(s[j])
  }

  /** `for (const x of xs) if (!acc.some(y => key(y) === key(x))) acc.push(x)`. */
  function AppendNewBy<T, K(==)>(acc: seq<T>, xs: seq<T>, key: T -> K): (r: seq<T>)
    ensures |acc| <= |r| <= |acc| + |xs|
    ensures r[..|acc|] == acc
    decreases |xs|
  {
    if xs == [] then acc
    else AppendNewBy(if HasKey(acc, key, key(xs[0])) then acc else acc + [xs[0]], xs[1..], key)
  }

  /** Every element of the merge comes from `acc` or from `xs`. */
  lemma {:induction false} AppendNewByFrom<T, K>(acc: seq<T>, xs: seq<T>, key: T -> K)
    ensures forall i :: 0 <= i < |AppendNewBy(acc, xs, key)| ==>
              AppendNewBy(acc, xs, key)[i] in acc || AppendNewBy(acc, xs, key)[i] in xs
    decreases |xs|
  {
    if xs != [] {
      var acc' := if HasKey(acc, key, key(xs[0])) then acc else acc + [xs[0]];
      AppendNewByFrom(acc', xs[1..], key);
      forall i | 0 <= i < |AppendNewBy(acc, xs, key)|
        ensures AppendNewBy(acc, xs, key)[i] in acc || AppendNewBy(acc, xs, key)[i] in xs
      {
        var x := AppendNewBy(acc, xs, key)[i];
        assert x in acc' || x in xs[1..];
        if x in xs[1..] {
          assert x in xs;
        }
      }
    }
  }

  /** Every key of `xs` is present in the merge. */
  lemma {:induction false} AppendNewByCovers<T, K>(acc: seq<T>, xs: seq<T>, key: T -> K)
    ensures forall j :: 0 <= j < |xs| ==> HasKey(AppendNewBy(acc, xs, key), key, key(xs[j]))
    ensures forall j :: 0 <= j < |acc| ==> HasKey(AppendNewBy(acc, xs, key), key, key(acc[j]))
    decreases |xs|
  {
    var r := AppendNewBy(acc, xs, key);
    forall j | 0 <= j < |acc| ensures HasKey(r, key, key(acc[j])) {
      assert r[j] == acc[j];
    }
    if xs != [] {
      var acc' := if HasKey(acc, key, key(xs[0])) then acc else acc + [xs[0]];
      AppendNewByCovers(acc', xs[1..], key);
      assert HasKey(acc', key, key(xs[0])) by {
        if !HasKey(acc, key, key(xs[0])) {
          assert acc'[|acc|] == xs[0];
        }
      }
      forall j | 0 <= j < |xs| ensures HasKey(r, key, key(xs[j])) {
        if j == 0 {
          var i :| 0 <= i < |acc'| && key(acc'[i]) == key(xs[0]);
          assert key(r[i]) == key(xs[0]);
        } else {
          assert xs[j] == xs[1..][j - 1];
        }
      }
    }
  }

  /** Merging never introduces a second element with the same key. */
  lemma {:induction false} AppendNewByUnique<T, K>(acc: seq<T>, xs: seq<T>, key: T -> K)
    requires KeysUnique(acc, key)
    ensures KeysUnique(AppendNewBy(acc, xs, key), key)
    decreases |xs|
  {
    if xs != [] {
      if !HasKey(acc, key, key(xs[0])) {
        var acc' := acc + [xs[0]];
        forall i, j | 0 <= i < j < |acc'| ensures key(acc'[i]) != key(acc'[j]) {
          if j == |acc| {
            assert acc'[i] == acc[i];
          } else {
            assert acc'[i] == acc[i] && acc'[j] == acc[j];
          }
        }
        AppendNewByUnique(acc', xs[1..], key);
      } else {
        AppendNewByUnique(acc, xs[1..], key);
      }
    }
  }

  // ------------------------------------------------------------- statistics

  /** The sum of a sequence of reals, accumulated left to right. */
  function SumR(s: seq<real>): real
  {
    if s == [] then 0.0 else SumR(s[..|s| - 1]) + s[|s| - 1]
  }

  /** NumPy's `mean` of a non-empty sample. */
  function Mean(s: seq<real>): real
    requires |s| > 0
  {
    SumR(s) / |s| as real
  }

  /** NumPy's `min` of a non-empty sample. */
  function MinOf(s: seq<real>): (m: real)
    requires |s| > 0
    ensures m in s && forall x :: x in s ==> m <= x
  {
    if |s| == 1 then s[0]
    else
      var m := MinOf(s[..|s| - 1]);
      assert forall x :: x in s ==> x in s[..|s| - 1] || x == s[|s| - 1];
      MinR(m, s[|s| - 1])
  }

  /** NumPy's `max` of a non-empty sample. */
  function MaxOf(s: seq<real>): (m: real)
    requires |s| > 0
    ensures m in s && forall x :: x in s ==> x <= m
  {
    if |s| == 1 then s[0]
    else
      var m := MaxOf(s[..|s| - 1]);
      assert forall x :: x in s ==> x in s[..|s| - 1] || x == s[|s| - 1];
      MaxR(m, s[|s| - 1])
  }

  /** A sum lies between its count times its smallest and its largest element. */
  lemma {:induction false} SumRBounds(s: seq<real>, lo: real, hi: real)
    requires forall x :: x in s ==> lo <= x <= hi
    ensures |s| as real * lo <= SumR(s) <= |s| as real * hi
  {
    if s != [] {
      var init := s[..|s| - 1];
      assert forall x :: x in init ==> x in s;
      assert s[|s| - 1] in s;
      SumRBounds(init, lo, hi);
    }
  }

  /** The mean of a sample lies between its minimum and its maximum. */
  lemma MeanBetween(s: seq<real>)
    requires |s| > 0
    ensures MinOf(s) <= Mean(s) <= MaxOf(s)
  {
    var lo, hi := MinOf(s), MaxOf(s);
    SumRBounds(s, lo, hi);
    MeanOfBounds(s, lo, hi);
  }

  lemma MeanOfBounds(s: seq<real>, lo: real, hi: real)
    requires |s| > 0
    requires |s| as real * lo <= SumR(s) <= |s| as real * hi
    ensures lo <= Mean(s) <= hi
  {
    DivBetween(SumR(s), |s| as real, lo, hi);
  }

  lemma DivBetween(x: real, n: real, lo: real, hi: real)
    requires n > 0.0 && n * lo <= x <= n * hi
    ensures lo <= x / n <= hi
  {
    var q := x / n;
    assert q * n == x;
    assert n * (q - lo) >= 0.0 && n * (hi - q) >= 0.0;
  }

  lemma {:induction false} SumRAppend(a: seq<real>, b: seq<real>)
    ensures SumR(a + b) == SumR(a) + SumR(b)
    decreases |b|
  {
    if b == [] {
      assert a + b == a;
    } else {
      assert (a + b)[..|a + b| - 1] == a + b[..|b| - 1];
      SumRAppend(a, b[..|b| - 1]);
    }
  }

  /** A sample whose every element is `d` has mean `d`. */
  lemma {:induction false} MeanConstant(s: seq<real>, d: real)
    requires |s| > 0 && forall x :: x in s ==> x == d
    ensures Mean(s) == d
  {
    SumRBounds(s, d, d);
    assert SumR(s) == |s| as real * d;
  }

  /** The population variance: the mean squared deviation from the mean (NumPy's `var`). */
  function Variance(s: seq<real>): real
    requires |s| > 0
  {
    SquaredDeviations(s, Mean(s)) / |s| as real
  }

  function SquaredDeviations(s: seq<real>, m: real): real
  {
    if s == [] then 0.0 else SquaredDeviations(s[..|s| - 1], m) + (s[|s| - 1] - m) * (s[|s| - 1] - m)
  }

  /** A sample whose every element is `d` has variance 0. */
  lemma {:induction false} VarianceConstant(s: seq<real>, d: real)
    requires |s| > 0 && forall x :: x in s ==> x == d
    ensures Variance(s) == 0.0
  {
    MeanConstant(s, d);
    NoDeviations(s, d);
  }

  lemma {:induction false} NoDeviations(s: seq<real>, d: real)
    requires forall x :: x in s ==> x == d
    ensures SquaredDeviations(s, d) == 0.0
  {
    if s != [] {
      var init := s[..|s| - 1];
      assert s[|s| - 1] in s;
      forall x | x in init ensures x == d {
        assert x in s;
      }
      NoDeviations(init, d);
    }
  }

  // ---------------------------------------------------------------- strings

  /**
   * White space removed by JavaScript's `String.prototype.trim`: the
   * WhiteSpace and LineTerminator characters of ECMAScript, that is tab,
   * vertical tab, form feed, space, no-break space, the byte order mark, the
   * other space separators of Unicode (U+1680, U+2000 to U+200A, U+202F,
   * U+205F, U+3000), LF, CR and the line and paragraph separators.
   */
  predicate IsSpace(c: char)
  {
    c == ' ' || c == '\t' || c == '\n' || c == '\r' || c == '\U{000B}' || c == '\U{000C}'
      || c == '\U{00A0}' || c == '\U{FEFF}' || c == '\U{1680}' || ('\U{2000}' <= c <= '\U{200A}')
      || c == '\U{2028}' || c == '\U{2029}' || c == '\U{202F}' || c == '\U{205F}' || c == '\U{3000}'
  }

  function TrimStart(s: string): (r: string)
    ensures |r| <= |s|
    ensures r == s[|s| - |r|..]
    ensures r == [] || !IsSpace(r[0])
    ensures forall i :: 0 <= i < |s| - |r| ==> IsSpace(s[i])
  {
    if s != [] && IsSpace(s[0]) then TrimStart(s[1..]) else s
  }

  function TrimEnd(s: string): (r: string)
    ensures |r| <= |s|
    ensures r == s[..|r|]
    ensures r == [] || !IsSpace(r[|r| - 1])
    ensures forall i :: |r| <= i < |s| ==> IsSpace(s[i])
  {
    if s != [] && IsSpace(s[|s| - 1]) then TrimEnd(s[..|s| - 1]) else s
  }

  /** `String.prototype.trim`. */
  function Trim(s: string): (r: string)
    ensures |r| <= |s|
    ensures r == [] || (!IsSpace(r[0]) && !IsSpace(r[|r| - 1]))
  {
    TrimEnd(TrimStart(s))
  }

  /** A string with no white space at either end is its own trimmed form. */
  lemma TrimKeeps(s: string)
    requires s != [] && !IsSpace(s[0]) && !IsSpace(s[|s| - 1])
    ensures Trim(s) == s
  {
    assert TrimStart(s) == s;
    assert TrimEnd(s) == s;
  }

  /** White space only, the strings `trim()` empties. */
  predicate Blank(s: string)
  {
    forall i :: 0 <= i < |s| ==> IsSpace(s[i])
  }

  /** A string is empty after trimming iff it consists of white space only. */
  lemma TrimEmptyIffBlank(s: string)
    ensures Trim(s) == [] <==> forall i :: 0 <= i < |s| ==> IsSpace(s[i])
  {
    var t := TrimStart(s);
    if Trim(s) == [] {
      assert t == [];
    } else {
      var r := Trim(s);
      assert r[0] == t[0];
      assert t[0] == s[|s| - |t|];
    }
  }

  /** The capitals of ASCII and of Latin-1 (`À` to `Þ`, without the sign `×`). */
  predicate IsCapital(c: char)
  {
    'A' <= c <= 'Z' || ('\U{00C0}' <= c <= '\U{00DE}' && c != '\U{00D7}')
  }

  /** The lower case of a capital is 32 code points on, in ASCII and in Latin-1 alike. */
  function ToLowerChar(c: char): (d: char)
    ensures 'A' <= c <= 'Z' ==> 'a' <= d <= 'z'
    ensures IsCapital(c) ==> d as int == c as int + 32 && !IsCapital(d)
    ensures !IsCapital(c) ==> d == c
  {
    if IsCapital(c) then (c as int + 32) as char else c
  }

  /** `String.prototype.toLowerCase` for the ASCII and Latin-1 letters. */
  function ToLower(s: string): (r: string)
    ensures |r| == |s|
    ensures forall i :: 0 <= i < |s| ==> r[i] == ToLowerChar(s[i])
  {
    seq(|s|, i requires 0 <= i < |s| => ToLowerChar(s[i]))
  }

  /** The UTF-16 code units of one character: two beyond the Basic Multilingual Plane, else one. */
  function CodeUnits(c: char): nat
  {
    if c as int >= 0x1_0000 then 2 else 1
  }

  /** JavaScript's `.length`, which counts UTF-16 code units rather than characters. */
  function JsLength(s: string): (n: nat)
    ensures |s| <= n <= 2 * |s|
    decreases |s|
  {
    if s == [] then 0 else CodeUnits(s[0]) + JsLength(s[1..])
  }

  /** A string of characters beyond the Basic Multilingual Plane has two code units per character. */
  lemma {:induction false} JsLengthAllAstral(s: string)
    requires forall i :: 0 <= i < |s| ==> s[i] as int >= 0x1_0000
    ensures JsLength(s) == 2 * |s|
    decreases |s|
  {
    if s != [] {
      JsLengthAllAstral(s[1..]);
    }
  }

  /** `.length` adds up over a concatenation. */
  lemma {:induction false} JsLengthAppend(a: string, b: string)
    ensures JsLength(a + b) == JsLength(a) + JsLength(b)
    decreases |a|
  {
    if a != [] {
      assert (a + b)[0] == a[0] && (a + b)[1..] == a[1..] + b;
      JsLengthAppend(a[1..], b);
    } else {
      assert a + b == b;
    }
  }

  /** Cutting a string at `k` splits its code units. */
  lemma JsLengthSplit(s: string, k: nat)
    requires k <= |s|
    ensures JsLength(s[..k]) + JsLength(s[k..]) == JsLength(s)
  {
    assert s == s[..k] + s[k..];
    JsLengthAppend(s[..k], s[k..]);
  }

  /** Trimming never lengthens a string, counted in code units. */
  lemma TrimJsShorter(s: string)
    ensures JsLength(Trim(s)) <= JsLength(s)
  {
    var t := TrimStart(s);
    var r := TrimEnd(t);
    assert r == Trim(s);
    JsLengthSplit(s, |s| - |t|);
    assert s[|s| - |t|..] == t;
    JsLengthSplit(t, |r|);
    assert t[..|r|] == r;
  }

  /** `String.prototype.startsWith`. */
  predicate StartsWith(s: string, prefix: string)
  {
    |prefix| <= |s| && s[..|prefix|] == prefix
  }

  /** `String.prototype.includes`: `t` occurs in `s` at some position. */
  predicate Contains(s: string, t: string)
  {
    exists k :: 0 <= k <= |s| && OccursAt(s, t, k)
  }

  /** `t` occurs in `s` starting at position `k`. */
  predicate OccursAt(s: string, t: string, k: int)
  {
    0 <= k && k + |t| <= |s| && s[k..k + |t|] == t
  }

  /** An occurrence at position `k` is an occurrence. */
  lemma ContainsAt(s: string, t: string, k: nat)
    requires k + |t| <= |s| && s[k..k + |t|] == t
    ensures Contains(s, t)
  {
    assert OccursAt(s, t, k);
  }

  /** A string lacking one of `t`'s characters does not contain `t`. */
  lemma MissingCharNotContained(s: string, t: string, c: char)
    requires c in t && forall i :: 0 <= i < |s| ==> s[i] != c
    ensures !Contains(s, t)
  {
    var i :| 0 <= i < |t| && t[i] == c;
    forall k | 0 <= k <= |s| - |t|
      ensures !OccursAt(s, t, k)
    {
      assert s[k..k + |t|][i] == s[k + i];
    }
  }

  /** `(a + b).toLowerCase()` lower-cases each part. */
  lemma ToLowerAppend(a: string, b: string)
    ensures ToLower(a + b) == ToLower(a) + ToLower(b)
  {
    var r, q := ToLower(a + b), ToLower(a) + ToLower(b);
    forall i | 0 <= i < |r|
      ensures r[i] == q[i]
    {
      if i < |a| {
        assert (a + b)[i] == a[i];
      } else {
        assert (a + b)[i] == b[i - |a|];
      }
    }
  }

  /** A string without capitals is its own lower case. */
  lemma LowerUnchanged(s: string)
    requires forall i :: 0 <= i < |s| ==> !IsCapital(s[i])
    ensures ToLower(s) == s
  {
  }

  lemma EmptyContained(s: string)
    ensures Contains(s, "")
  {
    ContainsAt(s, "", 0);
  }
}
