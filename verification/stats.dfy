/** Per-horse summary statistics (`calculate_horse_stats` in dashboard.py).

    Rates and means are exact rationals; the decimal rounding the dashboard
    applies for display is not modelled.
 */
module Stats {
  import opened Records
  import opened Rows

  datatype HorseStats = HorseStats(
    starts: nat,
    wins: nat,
    top2: nat,
    top3: nat,
    meanFinish: real,
    winRate: real,     // percent
    top2Rate: real,    // percent
    top3Rate: real,    // percent
    totalPrize: int,
    meanOdds: real
  )

  /** The mask that accepts exactly the rows of one horse. */
  function NameIs(name: string): RaceRecord -> bool
  {
    (r: RaceRecord) => r.name == name
  }

  /** The rows of one horse, in table order. */
  function Select(rows: seq<RaceRecord>, name: string): (out: seq<RaceRecord>)
    ensures forall x :: x in out <==> x in rows && x.name == name
  {
    Where(rows, NameIs(name))
  }

  function IsWin(r: RaceRecord): bool { r.finish == 1 }

  function InTop2(r: RaceRecord): bool { r.finish <= 2 }

  function InTop3(r: RaceRecord): bool { r.finish <= 3 }

  function SumInt(rows: seq<RaceRecord>, f: RaceRecord -> int): int
  {
    if rows == [] then 0 else f(rows[0]) + SumInt(rows[1..], f)
  }

  function SumReal(rows: seq<RaceRecord>, f: RaceRecord -> real): real
  {
    if rows == [] then 0.0 else f(rows[0]) + SumReal(rows[1..], f)
  }

  /** `count` out of `starts`, as a percentage. */
  function Rate(count: nat, starts: nat): real
    requires starts > 0
  {
    count as real / starts as real * 100.0
  }

  function CalculateHorseStats(rows: seq<RaceRecord>, name: string): (r: Option<HorseStats>)
    ensures r.None? <==> forall x :: x in rows ==> x.name != name
    ensures r.Some? ==> r.value.starts == |Select(rows, name)| && r.value.starts > 0
    ensures r.Some? ==> r.value.wins <= r.value.top2 <= r.value.top3 <= r.value.starts
    ensures r.Some? ==> 0.0 <= r.value.winRate <= r.value.top2Rate <= r.value.top3Rate <= 100.0
    ensures r.Some? ==> r.value.winRate == r.value.wins as real / r.value.starts as real * 100.0
    ensures r.Some? ==> r.value.top2Rate == r.value.top2 as real / r.value.starts as real * 100.0
    ensures r.Some? ==> r.value.top3Rate == r.value.top3 as real / r.value.starts as real * 100.0
  {
    var horse := Select(rows, name);
    if |horse| == 0 then
      None
    else
      var starts := |horse|;
      var wins := |Where(horse, IsWin)|;
      var top2 := |Where(horse, InTop2)|;
      var top3 := |Where(horse, InTop3)|;
      WhereMonotone(horse, IsWin, InTop2);
      WhereMonotone(horse, InTop2, InTop3);
      RateMonotone(wins, top2, starts);
      RateMonotone(top2, top3, starts);
      RateMonotone(top3, starts, starts);
      RateOfAll(starts);
      Some(HorseStats(
        starts, wins, top2, top3,
        SumReal(horse, FinishReal) / starts as real,
        Rate(wins, starts), Rate(top2, starts), Rate(top3, starts),
        SumInt(horse, Prize),
        SumReal(horse, Odds) / starts as real))
  }

  lemma RateMonotone(a: nat, b: nat, starts: nat)
    requires a <= b && starts > 0
    ensures 0.0 <= Rate(a, starts) <= Rate(b, starts)
  {
  }

  /** Every start counted gives 100 percent. */
  lemma RateOfAll(starts: nat)
    requires starts > 0
    ensures Rate(starts, starts) == 100.0
  {
    assert starts as real / starts as real == 1.0;
  }

  // ---------------------------------------------------------------------
  // Properties of the statistics

  /** Smallest finishing position among a non-empty set of rows. */
  function MinFinish(rows: seq<RaceRecord>): (m: int)
    requires rows != []
    ensures forall x :: x in rows ==> m <= x.finish
    ensures exists x :: x in rows && x.finish == m
  {
    if |rows| == 1 then rows[0].finish
    else
      var rest := MinFinish(rows[1..]);
      assert forall x :: x in rows ==> x == rows[0] || x in rows[1..];
      if rows[0].finish <= rest then rows[0].finish else rest
  }

  /** Largest finishing position among a non-empty set of rows. */
  function MaxFinish(rows: seq<RaceRecord>): (m: int)
    requires rows != []
    ensures forall x :: x in rows ==> x.finish <= m
    ensures exists x :: x in rows && x.finish == m
  {
    if |rows| == 1 then rows[0].finish
    else
      var rest := MaxFinish(rows[1..]);
      assert forall x :: x in rows ==> x == rows[0] || x in rows[1..];
      if rows[0].finish >= rest then rows[0].finish else rest
  }

  /** A sum of terms that each lie in [lo, hi] lies in [n * lo, n * hi]. */
  lemma {:induction false} SumRealBounds(rows: seq<RaceRecord>, f: RaceRecord -> real, lo: real, hi: real)
    requires forall x :: x in rows ==> lo <= f(x) <= hi
    ensures |rows| as real * lo <= SumReal(rows, f) <= |rows| as real * hi
    decreases |rows|
  {
    if rows != [] {
      assert rows[0] in rows;
      SumRealBounds(rows[1..], f, lo, hi);
    }
  }

  lemma {:induction false} SumIntNonnegative(rows: seq<RaceRecord>, f: RaceRecord -> int)
    requires forall x :: x in rows ==> f(x) >= 0
    ensures SumInt(rows, f) >= 0
    decreases |rows|
  {
    if rows != [] {
      assert rows[0] in rows;
      SumIntNonnegative(rows[1..], f);
    }
  }

  lemma {:induction false} SumIntAppend(a: seq<RaceRecord>, b: seq<RaceRecord>, f: RaceRecord -> int)
    ensures SumInt(a + b, f) == SumInt(a, f) + SumInt(b, f)
    decreases |a|
  {
    if a == [] {
      assert a + b == b;
    } else {
      assert (a + b)[1..] == a[1..] + b;
      SumIntAppend(a[1..], b, f);
    }
  }

  /** A mean of terms that each lie in [lo, hi] lies in [lo, hi]. */
  lemma MeanBounds(rows: seq<RaceRecord>, f: RaceRecord -> real, lo: real, hi: real)
    requires rows != []
    requires forall x :: x in rows ==> lo <= f(x) <= hi
    ensures lo <= SumReal(rows, f) / |rows| as real <= hi
  {
    SumRealBounds(rows, f, lo, hi);
    DivideBounds(SumReal(rows, f), |rows| as real, lo, hi);
  }

  lemma DivideBounds(total: real, n: real, lo: real, hi: real)
    requires n > 0.0 && n * lo <= total <= n * hi
    ensures lo <= total / n <= hi
  {
    assert total / n * n == total;
  }

  /** The mean finishing position lies between the horse's best and worst finish. */
  lemma MeanFinishWithinRange(rows: seq<RaceRecord>, name: string)
    requires CalculateHorseStats(rows, name).Some?
    ensures Select(rows, name) != []
    ensures MinFinish(Select(rows, name)) as real
            <= CalculateHorseStats(rows, name).value.meanFinish
            <= MaxFinish(Select(rows, name)) as real
  {
    var horse := Select(rows, name);
    MeanBounds(horse, FinishReal, MinFinish(horse) as real, MaxFinish(horse) as real);
  }

  /** The mean odds lie within any bounds that all of the horse's odds respect. */
  lemma MeanOddsWithinBounds(rows: seq<RaceRecord>, name: string, lo: real, hi: real)
    requires CalculateHorseStats(rows, name).Some?
    requires forall x :: x in rows && x.name == name ==> lo <= x.odds <= hi
    ensures lo <= CalculateHorseStats(rows, name).value.meanOdds <= hi
  {
    MeanBounds(Select(rows, name), Odds, lo, hi);
  }

  /** With non-negative prizes, the total prize is non-negative. */
  lemma TotalPrizeNonnegative(rows: seq<RaceRecord>, name: string)
    requires forall x :: x in rows ==> x.prize >= 0
    ensures CalculateHorseStats(rows, name).Some? ==> CalculateHorseStats(rows, name).value.totalPrize >= 0
  {
    SumIntNonnegative(Select(rows, name), Prize);
  }

  // ---------------------------------------------------------------------
  // Statistics of a split table: the counts and the total prize add up

  function StartsOf(s: Option<HorseStats>): nat { if s.Some? then s.value.starts else 0 }

  function WinsOf(s: Option<HorseStats>): nat { if s.Some? then s.value.wins else 0 }

  function Top2Of(s: Option<HorseStats>): nat { if s.Some? then s.value.top2 else 0 }

  function Top3Of(s: Option<HorseStats>): nat { if s.Some? then s.value.top3 else 0 }

  function PrizeOf(s: Option<HorseStats>): int { if s.Some? then s.value.totalPrize else 0 }

  /** Counting over two halves of a table and adding gives the count over the whole table. */
  lemma StatsAdditive(a: seq<RaceRecord>, b: seq<RaceRecord>, name: string)
    ensures StartsOf(CalculateHorseStats(a + b, name))
            == StartsOf(CalculateHorseStats(a, name)) + StartsOf(CalculateHorseStats(b, name))
    ensures WinsOf(CalculateHorseStats(a + b, name))
            == WinsOf(CalculateHorseStats(a, name)) + WinsOf(CalculateHorseStats(b, name))
    ensures Top2Of(CalculateHorseStats(a + b, name))
            == Top2Of(CalculateHorseStats(a, name)) + Top2Of(CalculateHorseStats(b, name))
    ensures Top3Of(CalculateHorseStats(a + b, name))
            == Top3Of(CalculateHorseStats(a, name)) + Top3Of(CalculateHorseStats(b, name))
    ensures PrizeOf(CalculateHorseStats(a + b, name))
            == PrizeOf(CalculateHorseStats(a, name)) + PrizeOf(CalculateHorseStats(b, name))
  {
    var ha, hb := Select(a, name), Select(b, name);
    WhereAppend(a, b, NameIs(name));
    assert Select(a + b, name) == ha + hb;
    WhereAppend(ha, hb, IsWin);
    WhereAppend(ha, hb, InTop2);
    WhereAppend(ha, hb, InTop3);
    SumIntAppend(ha, hb, Prize);
    assert ha == [] ==> Where(ha, IsWin) == [] && Where(ha, InTop2) == [] && Where(ha, InTop3) == [];
    assert hb == [] ==> Where(hb, IsWin) == [] && Where(hb, InTop2) == [] && Where(hb, InTop3) == [];
  }

  /** The statistics of one horse depend only on that horse's rows. */
  lemma StatsDependOnlyOnOwnRows(rows: seq<RaceRecord>, name: string)
    ensures CalculateHorseStats(rows, name) == CalculateHorseStats(Select(rows, name), name)
  {
    var horse := Select(rows, name);
    WhereAllOrNone(horse, NameIs(name));
    WhereIdempotent(rows, NameIs(name));
  }

  /** Reference count: the rows of the table that carry the horse's name. */
  function RowsNamed(rows: seq<RaceRecord>, name: string): nat
  {
    if rows == [] then 0
    else (if rows[0].name == name then 1 else 0) + RowsNamed(rows[1..], name)
  }

  /** Reference total: the prizes of the rows that carry the horse's name. */
  function PrizeWon(rows: seq<RaceRecord>, name: string): int
  {
    if rows == [] then 0
    else (if rows[0].name == name then rows[0].prize else 0) + PrizeWon(rows[1..], name)
  }

  /** Reference count: the horse's rows with finishing position 1. */
  function WinsNamed(rows: seq<RaceRecord>, name: string): nat
  {
    if rows == [] then 0
    else (if rows[0].name == name && rows[0].finish == 1 then 1 else 0) + WinsNamed(rows[1..], name)
  }

  /** Reference count: the horse's rows with finishing position `k` or better. */
  function PlacedNamed(rows: seq<RaceRecord>, name: string, k: int): nat
  {
    if rows == [] then 0
    else (if rows[0].name == name && rows[0].finish <= k then 1 else 0) + PlacedNamed(rows[1..], name, k)
  }

  /** Reference total: the horse's finishing positions added up. */
  function FinishesNamed(rows: seq<RaceRecord>, name: string): int
  {
    if rows == [] then 0
    else (if rows[0].name == name then rows[0].finish else 0) + FinishesNamed(rows[1..], name)
  }

  /** Reference total: the horse's odds added up. */
  function OddsNamed(rows: seq<RaceRecord>, name: string): real
  {
    if rows == [] then 0.0
    else (if rows[0].name == name then rows[0].odds else 0.0) + OddsNamed(rows[1..], name)
  }

  /** The counts and sums over the selected rows agree with the row-by-row references. */
  lemma {:induction false} OwnRowsMatchReference(rows: seq<RaceRecord>, name: string)
    ensures |Select(rows, name)| == RowsNamed(rows, name)
    ensures |Where(Select(rows, name), IsWin)| == WinsNamed(rows, name)
    ensures |Where(Select(rows, name), InTop2)| == PlacedNamed(rows, name, 2)
    ensures |Where(Select(rows, name), InTop3)| == PlacedNamed(rows, name, 3)
    ensures SumReal(Select(rows, name), FinishReal) == FinishesNamed(rows, name) as real
    ensures SumReal(Select(rows, name), Odds) == OddsNamed(rows, name)
    ensures SumInt(Select(rows, name), Prize) == PrizeWon(rows, name)
    decreases |rows|
  {
    if rows != [] {
      OwnRowsMatchReference(rows[1..], name);
      var rest := Select(rows[1..], name);
      if rows[0].name == name {
        assert Select(rows, name) == [rows[0]] + rest;
        assert ([rows[0]] + rest)[1..] == rest;
      } else {
        assert Select(rows, name) == rest;
      }
    }
  }

  /** Every statistic agrees with its row-by-row reference: starts counts the
      horse's rows; wins, top-2 and top-3 count those finishing 1st, 2nd or
      better and 3rd or better; the rates are those counts per start in percent;
      the mean finish and mean odds are the sums divided by the starts; the
      total prize is the sum of the prizes. */
  lemma StatsMatchReference(rows: seq<RaceRecord>, name: string)
    ensures StartsOf(CalculateHorseStats(rows, name)) == RowsNamed(rows, name)
    ensures WinsOf(CalculateHorseStats(rows, name)) == WinsNamed(rows, name)
    ensures Top2Of(CalculateHorseStats(rows, name)) == PlacedNamed(rows, name, 2)
    ensures Top3Of(CalculateHorseStats(rows, name)) == PlacedNamed(rows, name, 3)
    ensures PrizeOf(CalculateHorseStats(rows, name)) == PrizeWon(rows, name)
    ensures CalculateHorseStats(rows, name).Some? ==>
              var s, n := CalculateHorseStats(rows, name).value, RowsNamed(rows, name) as real;
              && n > 0.0
              && s.meanFinish == FinishesNamed(rows, name) as real / n
              && s.winRate == WinsNamed(rows, name) as real / n * 100.0
              && s.top2Rate == PlacedNamed(rows, name, 2) as real / n * 100.0
              && s.top3Rate == PlacedNamed(rows, name, 3) as real / n * 100.0
              && s.meanOdds == OddsNamed(rows, name) / n
  {
    OwnRowsMatchReference(rows, name);
  }

  /** The starts are the horse's rows counted with multiplicity: every row of
      that horse is counted as often as it occurs, and no other row is. */
  lemma StartsCountOwnRows(rows: seq<RaceRecord>, name: string)
    ensures StartsOf(CalculateHorseStats(rows, name)) == |Select(rows, name)|
    ensures forall x :: multiset(Select(rows, name))[x] == if x.name == name then multiset(rows)[x] else 0
  {
    WhereMultiset(rows, NameIs(name));
  }

  /** Inserting or removing a row of another horse leaves the statistics unchanged. */
  lemma OtherHorseRowIrrelevant(a: seq<RaceRecord>, x: RaceRecord, b: seq<RaceRecord>, name: string)
    requires x.name != name
    ensures CalculateHorseStats(a + [x] + b, name) == CalculateHorseStats(a + b, name)
  {
    var p := NameIs(name);
    WhereAppend(a + [x], b, p);
    WhereAppend(a, [x], p);
    WhereAppend(a, b, p);
    assert Where([x], p) == [] by {
      assert [x][1..] == [];
    }
    assert Where(a, p) + [] == Where(a, p);
    assert Select(a + [x] + b, name) == Select(a + b, name);
  }

  /** A record of horse "A" with the given finishing position and prize. */
  function ExampleRace(finish: int, prize: int): RaceRecord
  {
    RaceRecord("A", 0, "東京", 1600, finish, 10, "良", "晴", "武豊", 1, 2.0, prize)
  }

  /** The three races of the worked example below. */
  function ExampleRows(): seq<RaceRecord>
  {
    [ExampleRace(1, 500), ExampleRace(3, 0), ExampleRace(5, 0)]
  }

  /** Worked example: three races finishing 1st, 3rd and 5th with prizes 500, 0 and 0
      give 3 starts, 1 win, mean finish 3, win rate 100/3 %, top-3 rate 200/3 %, prize 500. */
  lemma ThreeRaceExample()
    ensures CalculateHorseStats(ExampleRows(), "A")
         == Some(HorseStats(3, 1, 1, 2, 3.0, 100.0 / 3.0, 100.0 / 3.0, 200.0 / 3.0, 500, 2.0))
  {
  }
}
