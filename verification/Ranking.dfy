/**
  The anomaly flag of `InsightAgent._ranking`: population z-scores, over the reals.
*/
module Ranking {
  import opened Wrappers

  function Sum(s: seq<real>): real {
    if s == [] then 0.0 else Sum(s[..|s| - 1]) + s[|s| - 1]
  }

  function SumOfSquares(s: seq<real>): (r: real)
    ensures r >= 0.0
  {
    if s == [] then 0.0 else SumOfSquares(s[..|s| - 1]) + Square(s[|s| - 1])
  }

  function Square(x: real): (r: real)
    ensures r >= 0.0
  {
    x * x
  }

  /** `n` times `x`. */
  function Times(n: nat, x: real): real {
    n as real * x
  }

  /** `[float(row[key]) for row in rows if row[key] is not None]` */
  function Values(rows: seq<Option<real>>): seq<real> {
    if rows == [] then []
    else
      var last := rows[|rows| - 1];
      Values(rows[..|rows| - 1]) + if last.Some? then [last.value] else []
  }

  function Mean(values: seq<real>): real {
    if values == [] then 0.0 else Sum(values) / |values| as real
  }

  function Shifted(values: seq<real>, m: real): seq<real> {
    seq(|values|, i requires 0 <= i < |values| => values[i] - m)
  }

  function Variance(values: seq<real>): real {
    if values == [] then 0.0 else SumOfSquares(Shifted(values, Mean(values))) / |values| as real
  }

  /** `math.sqrt`, exactly. */
  predicate IsRoot(root: real, x: real) {
    root >= 0.0 && Square(root) == x
  }

  function ZScore(value: real, mean: real, deviation: real): real {
    if deviation != 0.0 then (value - mean) / deviation else 0.0
  }

  predicate Unusual(value: real, mean: real, deviation: real) {
    deviation != 0.0 && (ZScore(value, mean, deviation) >= 2.0 || ZScore(value, mean, deviation) <= -2.0)
  }

  datatype Entry = Entry(rank: nat, value: Option<real>, zScore: real, unusual: bool)

  function Flags(entries: seq<Entry>): nat {
    if entries == [] then 0 else Flags(entries[..|entries| - 1]) + if entries[|entries| - 1].unusual then 1 else 0
  }

  function UnusualCount(values: seq<real>, mean: real, deviation: real): nat {
    if values == [] then 0
    else UnusualCount(values[..|values| - 1], mean, deviation) + if Unusual(values[|values| - 1], mean, deviation) then 1 else 0
  }

  function RankedEntry(rank: nat, row: Option<real>, mean: real, deviation: real): Entry {
    Entry(rank, row, if row.Some? then ZScore(row.value, mean, deviation) else 0.0, row.Some? && Unusual(row.value, mean, deviation))
  }

  /**
    What the ranking means: a value lies `zScore` deviations above the mean, or below it if that
    is negative, and is unusual from two deviations on; a null, and every value when all are
    equal, has score zero and is not unusual.
  */
  predicate Scored(row: Option<real>, entry: Entry, mean: real, deviation: real) {
    if row.None? || deviation == 0.0 then entry.zScore == 0.0 && !entry.unusual
    else entry.zScore * deviation == row.value - mean && (entry.unusual <==> entry.zScore >= 2.0 || entry.zScore <= -2.0)
  }

  /** `mean` and `deviation` are those of the values, and every row is scored with them in its place. */
  ghost predicate Standardizes(rows: seq<Option<real>>, ranked: seq<Entry>, mean: real, deviation: real) {
    var values := Values(rows);
    && Times(|values|, mean) == Sum(values) && Times(|values|, Square(deviation)) == SumOfSquares(Shifted(values, mean))
    && |ranked| == |rows|
    && forall i :: 0 <= i < |rows| ==>
         ranked[i].rank == i + 1 && ranked[i].value == rows[i] && Scored(rows[i], ranked[i], mean, deviation)
  }

  lemma EntryIsScored(rank: nat, row: Option<real>, mean: real, deviation: real)
    ensures Scored(row, RankedEntry(rank, row, mean, deviation), mean, deviation)
    ensures RankedEntry(rank, row, mean, deviation).rank == rank && RankedEntry(rank, row, mean, deviation).value == row
  {
    if row.Some? && deviation != 0.0 {
      Quotient(row.value - mean, deviation);
    }
  }

  lemma Quotient(a: real, b: real)
    requires b != 0.0
    ensures a / b * b == a
  {
  }

  lemma RankStandardizes(rows: seq<Option<real>>, ranked: seq<Entry>, deviation: real)
    requires IsRoot(deviation, Variance(Values(rows))) && |ranked| == |rows|
    requires forall i :: 0 <= i < |rows| ==> ranked[i] == RankedEntry(i + 1, rows[i], Mean(Values(rows)), deviation)
    ensures Standardizes(rows, ranked, Mean(Values(rows)), deviation)
  {
    hide Values, Mean, Variance, IsRoot, Scored, RankedEntry, Times, Sum, SumOfSquares, Shifted, Square;
    MeanAndDeviation(Values(rows), deviation);
    forall i | 0 <= i < |rows|
      ensures ranked[i].rank == i + 1 && ranked[i].value == rows[i] && Scored(rows[i], ranked[i], Mean(Values(rows)), deviation)
    {
      EntryIsScored(i + 1, rows[i], Mean(Values(rows)), deviation);
    }
  }

  lemma MeanAndDeviation(values: seq<real>, deviation: real)
    requires IsRoot(deviation, Variance(values))
    ensures Times(|values|, Mean(values)) == Sum(values)
    ensures Times(|values|, Square(deviation)) == SumOfSquares(Shifted(values, Mean(values)))
  {
    if values != [] {
      hide Shifted, Square, Sum, SumOfSquares, Times;
      TimesQuotient(|values|, Sum(values));
      TimesQuotient(|values|, SumOfSquares(Shifted(values, Mean(values))));
    }
  }

  lemma TimesQuotient(n: nat, a: real)
    requires n > 0
    ensures Times(n, a / n as real) == a
  {
    Quotient(a, n as real);
  }

  /**
    The ranking loop. Every row keeps its place and its value, a null is never flagged, and the
    flags are bounded by the number of values, whatever they are.
  */
  method Rank(rows: seq<Option<real>>, deviation: real) returns (ranked: seq<Entry>)
    requires IsRoot(deviation, Variance(Values(rows)))
    ensures |ranked| == |rows|
    ensures forall i :: 0 <= i < |rows| ==> ranked[i] == RankedEntry(i + 1, rows[i], Mean(Values(rows)), deviation)
    ensures exists mean :: Standardizes(rows, ranked, mean, deviation)
    ensures Flags(ranked) == UnusualCount(Values(rows), Mean(Values(rows)), deviation)
    ensures 4 * Flags(ranked) <= |Values(rows)|
    ensures |Values(rows)| <= 4 ==> Flags(ranked) == 0
  {
    var values := Values(rows);
    var mean := Mean(values);
    ranked := [];
    assert rows[..0] == [] && Values([]) == [];
    FlagBounds(values, deviation);
    hide Values, Mean, Variance, Unusual, ZScore, IsRoot, Standardizes;
    for rank := 0 to |rows|
      invariant |ranked| == rank
      invariant forall i :: 0 <= i < rank ==> ranked[i] == RankedEntry(i + 1, rows[i], mean, deviation)
      invariant Flags(ranked) == UnusualCount(Values(rows[..rank]), mean, deviation)
    {
      var row := rows[rank];
      var entry := Entry(rank + 1, row, if row.Some? then ZScore(row.value, mean, deviation) else 0.0,
                         row.Some? && Unusual(row.value, mean, deviation));
      OneMoreRow(rows, rank, mean, deviation);
      OneMoreEntry(ranked, entry);
      hide UnusualCount, Flags;
      ranked := ranked + [entry];
    }
    assert rows[..|rows|] == rows;
    RankStandardizes(rows, ranked, deviation);
  }

  lemma OneMoreEntry(entries: seq<Entry>, entry: Entry)
    ensures Flags(entries + [entry]) == Flags(entries) + if entry.unusual then 1 else 0
  {
    assert (entries + [entry])[..|entries|] == entries;
  }

  lemma FlagBounds(values: seq<real>, deviation: real)
    requires IsRoot(deviation, Variance(values))
    ensures 4 * UnusualCount(values, Mean(values), deviation) <= |values|
    ensures |values| <= 4 ==> UnusualCount(values, Mean(values), deviation) == 0
  {
    AtMostAQuarter(values, deviation);
    if |values| <= 4 { NoneAmongFour(values, deviation); }
  }

  lemma OneMoreRow(rows: seq<Option<real>>, k: nat, mean: real, deviation: real)
    requires k < |rows|
    ensures UnusualCount(Values(rows[..k + 1]), mean, deviation)
         == UnusualCount(Values(rows[..k]), mean, deviation) + if rows[k].Some? && Unusual(rows[k].value, mean, deviation) then 1 else 0
  {
    assert rows[..k + 1][..k] == rows[..k];
    var before := Values(rows[..k]);
    assert Values(rows[..k + 1]) == before + if rows[k].Some? then [rows[k].value] else [];
    hide Values, Unusual;
    if rows[k].Some? {
      assert (before + [rows[k].value])[..|before|] == before;
    } else {
      assert before + [] == before;
    }
  }

  // ---------------------------------------------------------------- squares

  lemma Product(a: real, b: real)
    ensures a >= 0.0 && b >= 0.0 ==> a * b >= 0.0
    ensures a > 0.0 && b > 0.0 ==> a * b > 0.0
    ensures a < 0.0 && b > 0.0 ==> a * b < 0.0
    ensures a <= 0.0 && b <= 0.0 ==> a * b >= 0.0
    ensures a < 0.0 && b < 0.0 ==> a * b > 0.0
  {
  }

  lemma SquareIsPositive(x: real)
    requires x != 0.0
    ensures Square(x) > 0.0
  {
    hide Square;
    SquareIs(x);
    SignOfProduct(x, x, Square(x));
  }

  lemma SquareIs(x: real)
    ensures Square(x) == x * x
  {
  }

  lemma SignOfProduct(a: real, b: real, c: real)
    requires c == a * b && ((a > 0.0 && b > 0.0) || (a < 0.0 && b < 0.0))
    ensures c > 0.0
  {
  }

  lemma Doubled(x: real)
    ensures Square(2.0 * x) == 4.0 * Square(x)
  {
  }

  lemma Opposite(x: real)
    ensures Square(-x) == Square(x)
  {
  }

  lemma Scaled(z: real, bound: real, deviation: real)
    requires deviation > 0.0
    ensures z >= bound <==> z * deviation >= bound * deviation
  {
    Product(z - bound, deviation);
    assert (z - bound) * deviation == z * deviation - bound * deviation;
  }

  lemma FarApart(d: real, t: real)
    requires t > 0.0
    ensures Square(d) >= Square(t) <==> d >= t || d <= -t
  {
    Product(d - t, d + t);
    Product(d + t, d - t);
    assert (d - t) * (d + t) == Square(d) - Square(t);
    assert (d + t) * (d - t) == Square(d) - Square(t);
  }

  lemma UnusualIsFar(value: real, mean: real, deviation: real)
    requires deviation > 0.0
    ensures Unusual(value, mean, deviation) <==> Square(value - mean) >= Square(2.0 * deviation)
  {
    var z := ZScore(value, mean, deviation);
    var d, t := value - mean, 2.0 * deviation;
    assert d == z * deviation;
    hide Square, ZScore;
    Scaled(z, 2.0, deviation);
    var y := -z;
    assert y * deviation == -d;
    Scaled(y, 2.0, deviation);
    FarApart(d, t);
  }

  lemma TimesNext(n: nat, x: real)
    ensures Times(n + 1, x) == Times(n, x) + x && Times(0, x) == 0.0
  {
  }

  lemma TimesPositive(m: nat, n: nat, x: real)
    requires x > 0.0
    ensures Times(m, x) <= Times(n, x) <==> m <= n
  {
    Scaled(n as real, m as real, x);
  }

  lemma ShiftedFront(values: seq<real>, m: real)
    requires values != []
    ensures Shifted(values, m)[..|values| - 1] == Shifted(values[..|values| - 1], m)
    ensures Shifted(values, m)[|values| - 1] == values[|values| - 1] - m
  {
  }

  lemma {:induction false} SumShifted(values: seq<real>, m: real)
    ensures Sum(Shifted(values, m)) == Sum(values) - Times(|values|, m)
  {
    if values == [] {
      TimesNext(0, m);
    } else {
      var n := |values| - 1;
      ShiftedFront(values, m);
      SumShifted(values[..n], m);
      TimesNext(n, m);
      hide Times, Shifted;
    }
  }

  /** Deviations from the mean cancel. */
  lemma DeviationsCancel(values: seq<real>)
    ensures Sum(Shifted(values, Mean(values))) == 0.0
  {
    SumShifted(values, Mean(values));
    if values != [] {
      hide Sum, Shifted;
      assert Times(|values|, Mean(values)) == Sum(values);
    }
  }

  lemma TotalSquares(values: seq<real>)
    ensures SumOfSquares(Shifted(values, Mean(values))) == Times(|values|, Variance(values))
  {
    if values == [] {
      assert Shifted(values, Mean(values)) == [];
    } else {
      hide SumOfSquares, Mean, Shifted;
    }
  }

  // ---------------------------------------------------------------- few values can be far

  lemma {:induction false} FarOnes(values: seq<real>, m: real, deviation: real)
    requires deviation > 0.0
    ensures Times(UnusualCount(values, m, deviation), Square(2.0 * deviation)) <= SumOfSquares(Shifted(values, m))
  {
    if values == [] {
      TimesNext(0, Square(2.0 * deviation));
    } else {
      var n := |values| - 1;
      FarOnes(values[..n], m, deviation);
      ShiftedFront(values, m);
      UnusualIsFar(values[n], m, deviation);
      TimesNext(UnusualCount(values[..n], m, deviation), Square(2.0 * deviation));
      hide Unusual, Square, Times, Shifted;
    }
  }

  lemma {:induction false} NothingUnusual(values: seq<real>, mean: real)
    ensures UnusualCount(values, mean, 0.0) == 0
  {
    if values != [] { NothingUnusual(values[..|values| - 1], mean); }
  }

  /** At most a quarter of the values can be flagged. */
  lemma AtMostAQuarter(values: seq<real>, deviation: real)
    requires IsRoot(deviation, Variance(values))
    ensures 4 * UnusualCount(values, Mean(values), deviation) <= |values|
  {
    if deviation == 0.0 {
      NothingUnusual(values, Mean(values));
    } else {
      FarOnes(values, Mean(values), deviation);
      TotalSquares(values);
      SquareIsPositive(deviation);
      Doubled(deviation);
      hide Variance, SumOfSquares, Square, Mean, Shifted, UnusualCount;
      var count := UnusualCount(values, Mean(values), deviation);
      var v := Square(deviation);
      assert Times(count, 4.0 * v) == Times(4 * count, v) by { Regrouped(count, v); }
      TimesPositive(4 * count, |values|, v);
    }
  }

  lemma Regrouped(n: nat, x: real)
    ensures Times(n, 4.0 * x) == Times(4 * n, x)
  {
    assert (4 * n) as real == 4.0 * n as real;
  }

  // ---------------------------------------------------------------- no value is too far

  /** The square of a sum is at most the number of terms times the sum of squares. */
  lemma {:induction false} SquareOfSum(s: seq<real>)
    ensures Square(Sum(s)) <= Times(|s|, SumOfSquares(s))
  {
    if s != [] {
      var front := s[..|s| - 1];
      SquareOfSum(front);
      hide Times, Square;
      OneMoreTerm(|front|, Sum(front), SumOfSquares(front), s[|s| - 1]);
    }
  }

  lemma OneMoreTerm(m: nat, sum: real, squares: real, x: real)
    requires Square(sum) <= Times(m, squares) && squares >= 0.0
    ensures Square(sum + x) <= Times(m + 1, squares + Square(x))
  {
    if m == 0 {
      if sum != 0.0 { SquareIsPositive(sum); }
      assert sum == 0.0;
    } else {
      CrossTerm(m as real, sum, squares, x);
      TimesNext(m, squares + Square(x));
      assert Square(sum + x) == Square(sum) + 2.0 * sum * x + Square(x);
      assert Times(m, squares + Square(x)) == Times(m, squares) + m as real * Square(x);
    }
  }

  lemma CrossTerm(k: real, sum: real, squares: real, x: real)
    requires k > 0.0 && Square(sum) <= k * squares
    ensures 2.0 * sum * x <= squares + k * Square(x)
  {
    var cross, far := 2.0 * sum * x, k * Square(x);
    assert Square(sum - k * x) == Square(sum) - cross * k + far * k by { Expanded(sum, k, x); }
    assert cross * k <= squares * k + far * k;
    assert squares * k + far * k == (squares + far) * k;
    Scaled(squares + far, cross, k);
  }

  lemma Expanded(sum: real, k: real, x: real)
    ensures Square(sum - k * x) == Square(sum) - (2.0 * sum * x) * k + (k * Square(x)) * k
  {
    assert (sum - k * x) * (sum - k * x) == sum * sum - 2.0 * (sum * (k * x)) + (k * x) * (k * x);
    assert sum * (k * x) == (sum * x) * k;
    assert (k * x) * (k * x) == (k * (x * x)) * k;
  }

  lemma {:induction false} Removed(s: seq<real>, i: nat)
    requires i < |s|
    ensures Sum(s[..i] + s[i + 1..]) == Sum(s) - s[i]
    ensures SumOfSquares(s[..i] + s[i + 1..]) == SumOfSquares(s) - Square(s[i])
  {
    hide Square;
    var last := |s| - 1;
    var rest := s[..i] + s[i + 1..];
    if i == last {
      assert rest == s[..last];
    } else {
      var front := s[..last];
      Removed(front, i);
      assert rest[..last - 1] == front[..i] + front[i + 1..];
      assert rest[last - 1] == s[last];
    }
  }

  /** No value is further than `sqrt(n - 1)` deviations from the mean. */
  lemma ZSquaredBound(values: seq<real>, i: nat)
    requires i < |values|
    ensures Square(values[i] - Mean(values)) <= Times(|values| - 1, Variance(values))
  {
    var d := Shifted(values, Mean(values));
    assert d[i] == values[i] - Mean(values);
    DeviationsCancel(values);
    TotalSquares(values);
    hide Shifted, Mean, Variance, Square, Times, Sum, SumOfSquares;
    var rest := d[..i] + d[i + 1..];
    Removed(d, i);
    SquareOfSum(rest);
    assert Sum(rest) == -d[i];
    Opposite(d[i]);
    Balance(|rest|, Square(d[i]), Variance(values), SumOfSquares(rest));
  }

  lemma Balance(m: nat, q: real, v: real, others: real)
    requires q <= Times(m, others) && others == Times(m + 1, v) - q
    ensures q <= Times(m, v)
  {
    var k := m as real;
    assert Times(m, others) == (k * v) * (k + 1.0) - k * q;
    assert q * (k + 1.0) <= (k * v) * (k + 1.0);
    Scaled(k * v, q, k + 1.0);
  }

  lemma {:induction false} NoneCounted(values: seq<real>, mean: real, deviation: real)
    requires forall i :: 0 <= i < |values| ==> !Unusual(values[i], mean, deviation)
    ensures UnusualCount(values, mean, deviation) == 0
  {
    hide Unusual;
    if values != [] { NoneCounted(values[..|values| - 1], mean, deviation); }
  }

  lemma UsualAmongFour(values: seq<real>, deviation: real, i: nat)
    requires IsRoot(deviation, Variance(values)) && deviation > 0.0 && i < |values| <= 4
    ensures !Unusual(values[i], Mean(values), deviation)
  {
    ZSquaredBound(values, i);
    UnusualIsFar(values[i], Mean(values), deviation);
    SquareIsPositive(deviation);
    Doubled(deviation);
    TimesPositive(|values| - 1, 3, Square(deviation));
    assert Times(3, Square(deviation)) == 3.0 * Square(deviation);
    hide Unusual, Variance, Mean, Square, Times;
  }

  /** With four or fewer values nothing is ever flagged. */
  lemma NoneAmongFour(values: seq<real>, deviation: real)
    requires IsRoot(deviation, Variance(values)) && |values| <= 4
    ensures UnusualCount(values, Mean(values), deviation) == 0
  {
    if deviation == 0.0 {
      NothingUnusual(values, Mean(values));
    } else {
      forall i | 0 <= i < |values| ensures !Unusual(values[i], Mean(values), deviation) {
        UsualAmongFour(values, deviation, i);
      }
      NoneCounted(values, Mean(values), deviation);
    }
  }

  // ---------------------------------------------------------------- the bounds are reached

  lemma SumOneMore(s: seq<real>, x: real)
    ensures Sum(s + [x]) == Sum(s) + x && SumOfSquares(s + [x]) == SumOfSquares(s) + Square(x)
  {
    assert (s + [x])[..|s|] == s;
  }

  lemma {:induction false} SumSame(n: nat, x: real)
    ensures Sum(seq(n, _ => x)) == Times(n, x) && SumOfSquares(seq(n, _ => x)) == Times(n, Square(x))
  {
    hide Square;
    if n == 0 {
      TimesNext(0, x);
      TimesNext(0, Square(x));
    } else {
      SumSame(n - 1, x);
      TimesNext(n - 1, x);
      TimesNext(n - 1, Square(x));
      assert seq(n, _ => x) == seq(n - 1, _ => x) + [x];
      SumOneMore(seq(n - 1, _ => x), x);
    }
  }

  /** Five values can have a flag, so four is exact. */
  lemma FiveCanFlag()
    ensures var values := seq(4, _ => 0.0) + [1.0];
      IsRoot(0.4, Variance(values)) && UnusualCount(values, Mean(values), 0.4) == 1
  {
    var zeros := seq(4, _ => 0.0);
    var values := zeros + [1.0];
    SumSame(4, 0.0);
    SumOneMore(zeros, 1.0);
    assert Mean(values) == 0.2;
    assert Shifted(values, 0.2) == seq(4, _ => -0.2) + [0.8];
    SumSame(4, -0.2);
    SumOneMore(seq(4, _ => -0.2), 0.8);
    assert Variance(values) == 0.16;
    assert values[..4] == zeros;
    NoneCounted(zeros, 0.2, 0.4);
  }

  lemma CountOneMore(values: seq<real>, x: real, mean: real, deviation: real)
    ensures UnusualCount(values + [x], mean, deviation) == UnusualCount(values, mean, deviation) + if Unusual(x, mean, deviation) then 1 else 0
  {
    assert (values + [x])[..|values|] == values;
  }

  /** Two of eight values can be flagged, so a quarter is exact. */
  lemma QuarterIsReached()
    ensures var values := seq(6, _ => 0.0) + [1.0] + [-1.0];
      IsRoot(0.5, Variance(values)) && 4 * UnusualCount(values, Mean(values), 0.5) == |values|
  {
    var zeros := seq(6, _ => 0.0);
    var values := zeros + [1.0] + [-1.0];
    SumSame(6, 0.0);
    SumOneMore(zeros, 1.0);
    SumOneMore(zeros + [1.0], -1.0);
    assert Mean(values) == 0.0;
    assert Shifted(values, 0.0) == values;
    assert Variance(values) == 0.25;
    NoneCounted(zeros, 0.0, 0.5);
    CountOneMore(zeros, 1.0, 0.0, 0.5);
    CountOneMore(zeros + [1.0], -1.0, 0.0, 0.5);
  }
}
