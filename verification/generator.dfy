/** The synthetic data set (`generate_sample_horse_data` in sample_data.py).

    Every random draw of the generator is an explicit parameter, constrained by
    a precondition to the range the random source can produce.  The draws of
    one race are gathered in a `RaceDraw`; a horse's races are a sequence of
    draws whose length is that horse's race count.
 */
module Generator {
  import opened Records
  import opened Rows
  import opened Stats

  const Roster: seq<string> := [
    "ディープインパクト", "オルフェーヴル", "アーモンドアイ", "ジェンティルドンナ",
    "キタサンブラック", "サトノダイヤモンド", "ウオッカ", "ダイワスカーレット",
    "ブエナビスタ", "ゴールドシップ", "トーセンラー", "フェノーメノ",
    "モーリス", "リスグラシュー", "クロノジェネシス", "コントレイル",
    "デアリングタクト", "グランアレグリア", "タイトルホルダー", "イクイノックス"
  ]

  const Venues: seq<string> := ["東京", "中山", "京都", "阪神", "中京", "新潟", "福島", "小倉"]

  const Distances: seq<int> := [1200, 1400, 1600, 1800, 2000, 2200, 2400, 2500, 3000, 3200]

  const TrackConditions: seq<string> := ["良", "稍重", "重", "不良"]

  const Weathers: seq<string> := ["晴", "曇", "雨", "小雨"]

  const Jockeys: seq<string> := ["武豊", "福永祐一", "川田将雅", "ルメール", "デムーロ", "戸崎圭太", "岩田康誠", "池添謙一"]

  /** Races lie at most this many days before the generation day. */
  const LookbackDays := 730

  const MinRacesPerHorse := 10
  const MaxRacesPerHorse := 20
  const MaxFieldSize := 18
  const MinFieldSize := 8
  const MaxPrize := 20000
  /** Finishing positions after this one earn no prize. */
  const LastPaidPosition := 5

  // ---------------------------------------------------------------------
  // Finishing-position tiers

  /** The band a race's hidden strength falls in. */
  datatype Tier = Strong | Middle | Weak

  function TierOf(strength: real): Tier
  {
    if strength > 0.8 then Strong
    else if strength > 0.6 then Middle
    else Weak
  }

  /** The positions a tier can draw from. */
  function Positions(t: Tier): seq<int>
  {
    match t
    case Strong => [1, 2, 3, 4, 5]
    case Middle => [1, 2, 3, 4, 5, 6, 7, 8]
    case Weak => [5, 6, 7, 8, 9, 10, 11, 12, 13, 14, 15, 16, 17, 18]
  }

  /** The probability of each of the tier's positions; the weak tier is uniform. */
  function Weights(t: Tier): seq<real>
  {
    match t
    case Strong => [0.4, 0.25, 0.15, 0.1, 0.1]
    case Middle => [0.15, 0.15, 0.15, 0.15, 0.15, 0.1, 0.05, 0.1]
    case Weak => Repeat(1.0 / 14.0, 14)
  }

  /** `n` copies of the weight `w`. */
  function Repeat(w: real, n: nat): seq<real>
  {
    if n == 0 then [] else [w] + Repeat(w, n - 1)
  }

  function SumWeights(ws: seq<real>): real
  {
    if ws == [] then 0.0 else ws[0] + SumWeights(ws[1..])
  }

  /** Each tier's weights form a probability distribution over its positions. */
  lemma TierDistributions(t: Tier)
    ensures |Weights(t)| == |Positions(t)|
    ensures forall i :: 0 <= i < |Weights(t)| ==> Weights(t)[i] > 0.0
    ensures SumWeights(Weights(t)) == 1.0
  {
    match t
    case Strong =>
      assert SumWeights([0.4, 0.25, 0.15, 0.1, 0.1]) == 1.0;
    case Middle =>
      assert SumWeights([0.15, 0.15, 0.15, 0.15, 0.15, 0.1, 0.05, 0.1]) == 1.0;
    case Weak =>
      UniformSum(14, 1.0 / 14.0);
  }

  lemma {:induction false} UniformSum(n: nat, w: real)
    ensures |Repeat(w, n)| == n
    ensures forall i :: 0 <= i < n ==> Repeat(w, n)[i] == w
    ensures SumWeights(Repeat(w, n)) == n as real * w
  {
    if n > 0 {
      assert Repeat(w, n)[1..] == Repeat(w, n - 1);
      UniformSum(n - 1, w);
    }
  }

  /** `choice` is an index the tier's weighted draw can return. */
  predicate ValidChoice(t: Tier, choice: int)
  {
    0 <= choice < |Positions(t)| && choice < |Weights(t)| && Weights(t)[choice] > 0.0
  }

  /** The finishing position drawn in a race of the given strength. */
  function FinishFor(strength: real, choice: int): (pos: int)
    requires ValidChoice(TierOf(strength), choice)
    ensures TierOf(strength) == Strong ==> 1 <= pos <= 5
    ensures TierOf(strength) == Middle ==> 1 <= pos <= 8
    ensures TierOf(strength) == Weak ==> 5 <= pos <= 18
    ensures 1 <= pos <= MaxFieldSize
  {
    Positions(TierOf(strength))[choice]
  }

  // ---------------------------------------------------------------------
  // One race

  /** The random draws of one race, in the order the generator makes them,
      and the day the clock reads when the race is dated.
      The prize draw is only consumed when the horse finishes in the money. */
  datatype RaceDraw = RaceDraw(
    now: int,
    daysAgo: int,
    strength: real,
    choice: int,
    fieldSize: int,
    distanceIndex: int,
    venueIndex: int,
    trackIndex: int,
    weatherIndex: int,
    jockeyIndex: int,
    popularity: int,
    odds: real,
    prize: int
  )

  function Max(a: int, b: int): int { if a >= b then a else b }

  /** The ranges the random source draws each value from. */
  predicate ValidDraw(d: RaceDraw)
  {
    && 0 <= d.daysAgo <= LookbackDays
    && 0.0 <= d.strength < 1.0
    && ValidChoice(TierOf(d.strength), d.choice)
    && Max(MinFieldSize, FinishFor(d.strength, d.choice)) <= d.fieldSize <= MaxFieldSize
    && 0 <= d.distanceIndex < |Distances|
    && 0 <= d.venueIndex < |Venues|
    && 0 <= d.trackIndex < |TrackConditions|
    && 0 <= d.weatherIndex < |Weathers|
    && 0 <= d.jockeyIndex < |Jockeys|
    && 1 <= d.popularity <= d.fieldSize
    && 1.2 <= d.odds <= 50.0
    && 0 <= d.prize <= MaxPrize
  }

  /** The record invariants every race generated while the clock reads a day
      in `first..last` satisfies. */
  predicate Plausible(r: RaceRecord, first: int, last: int)
  {
    && 1 <= r.finish <= r.fieldSize <= MaxFieldSize
    && MinFieldSize <= r.fieldSize
    && 1 <= r.popularity <= r.fieldSize
    && (r.finish > LastPaidPosition ==> r.prize == 0)
    && 0 <= r.prize <= MaxPrize
    && r.distance in Distances
    && r.venue in Venues
    && r.track in TrackConditions
    && r.weather in Weathers
    && r.jockey in Jockeys
    && first - LookbackDays <= r.date <= last
    && 1.2 <= r.odds <= 50.0
  }

  /** One race of horse `name`, run `d.daysAgo` days before the day `d.now`
      the clock reads. */
  function GenerateRace(name: string, d: RaceDraw): (r: RaceRecord)
    requires ValidDraw(d)
    ensures r.name == name
    ensures Plausible(r, d.now, d.now)
    ensures TierOf(d.strength) == Strong ==> r.finish <= 5
    ensures TierOf(d.strength) == Middle ==> r.finish <= 8
    ensures TierOf(d.strength) == Weak ==> r.finish >= 5
  {
    var finish := FinishFor(d.strength, d.choice);
    RaceRecord(
      name,
      d.now - d.daysAgo,
      Venues[d.venueIndex],
      Distances[d.distanceIndex],
      finish,
      d.fieldSize,
      TrackConditions[d.trackIndex],
      Weathers[d.weatherIndex],
      Jockeys[d.jockeyIndex],
      d.popularity,
      d.odds,
      if finish <= LastPaidPosition then d.prize else 0)
  }

  // ---------------------------------------------------------------------
  // One horse, then the whole roster

  /** All races of one horse, one per draw, in draw order. */
  function GenerateRaces(first: int, last: int, name: string, draws: seq<RaceDraw>): (out: seq<RaceRecord>)
    requires forall i :: 0 <= i < |draws| ==> ValidDraw(draws[i]) && first <= draws[i].now <= last
    ensures |out| == |draws|
    ensures forall x :: x in out ==> x.name == name && Plausible(x, first, last)
    ensures forall i :: 0 <= i < |draws| ==> out[i] == GenerateRace(name, draws[i])
  {
    if draws == [] then []
    else
      var head := GenerateRace(name, draws[0]);
      var rest := GenerateRaces(first, last, name, draws[1..]);
      assert Plausible(head, first, last);
      assert forall x :: x in [head] + rest ==> x == head || x in rest;
      [head] + rest
  }

  /** Every horse's draws are valid and were made while the clock read a day
      in `first..last`. */
  predicate ValidDraws(draws: seq<seq<RaceDraw>>, first: int, last: int)
  {
    forall i, j :: 0 <= i < |draws| && 0 <= j < |draws[i]| ==> ValidDraw(draws[i][j]) && first <= draws[i][j].now <= last
  }

  /** Every horse's race count was drawn from [10, 20]. */
  predicate ValidRaceCounts(draws: seq<seq<RaceDraw>>)
  {
    forall i :: 0 <= i < |draws| ==> MinRacesPerHorse <= |draws[i]| <= MaxRacesPerHorse
  }

  function TotalRaces(draws: seq<seq<RaceDraw>>): nat
  {
    if draws == [] then 0 else |draws[0]| + TotalRaces(draws[1..])
  }

  /** The races of each horse of `roster` in turn, horse `i` taking `draws[i]`. */
  function GenerateAll(first: int, last: int, roster: seq<string>, draws: seq<seq<RaceDraw>>): (out: seq<RaceRecord>)
    requires |roster| == |draws| && ValidDraws(draws, first, last)
    ensures |out| == TotalRaces(draws)
    ensures forall x :: x in out ==> x.name in roster && Plausible(x, first, last)
  {
    if roster == [] then []
    else
      var block := GenerateRaces(first, last, roster[0], draws[0]);
      var rest := GenerateAll(first, last, roster[1..], draws[1..]);
      assert forall x :: x in block + rest ==> x in block || x in rest;
      block + rest
  }

  /** The generated data set: the fixed roster, each horse with its own race count. */
  function GenerateSampleData(first: int, last: int, draws: seq<seq<RaceDraw>>): (out: seq<RaceRecord>)
    requires |draws| == |Roster| && ValidDraws(draws, first, last) && ValidRaceCounts(draws)
    ensures |out| == TotalRaces(draws)
    ensures |Roster| * MinRacesPerHorse <= |out| <= |Roster| * MaxRacesPerHorse
    ensures forall x :: x in out ==> x.name in Roster && Plausible(x, first, last)
  {
    TotalRacesBounds(draws);
    GenerateAll(first, last, Roster, draws)
  }

  lemma {:induction false} TotalRacesBounds(draws: seq<seq<RaceDraw>>)
    requires ValidRaceCounts(draws)
    ensures |draws| * MinRacesPerHorse <= TotalRaces(draws) <= |draws| * MaxRacesPerHorse
    decreases |draws|
  {
    if draws != [] {
      TotalRacesBounds(draws[1..]);
    }
  }

  // ---------------------------------------------------------------------
  // Grouping by horse

  predicate Distinct(names: seq<string>)
  {
    forall i, j :: 0 <= i < j < |names| ==> names[i] != names[j]
  }

  lemma RosterDistinct()
    ensures Distinct(Roster)
  {
  }

  /** Position of `name` in `roster`. */
  function IndexIn(roster: seq<string>, name: string): (k: nat)
    requires name in roster
    ensures k < |roster| && roster[k] == name
  {
    if roster[0] == name then 0 else 1 + IndexIn(roster[1..], name)
  }

  /** The rows come in roster order: no row of a later horse precedes a row of an earlier one. */
  predicate InRosterOrder(roster: seq<string>, rows: seq<RaceRecord>)
  {
    && (forall x :: x in rows ==> x.name in roster)
    && forall i, j :: 0 <= i <= j < |rows| ==> IndexIn(roster, rows[i].name) <= IndexIn(roster, rows[j].name)
  }

  /** Each horse's block of rows precedes the next horse's block. */
  lemma {:induction false} GroupedInRosterOrder(first: int, last: int, roster: seq<string>, draws: seq<seq<RaceDraw>>)
    requires |roster| == |draws| && ValidDraws(draws, first, last) && Distinct(roster)
    ensures InRosterOrder(roster, GenerateAll(first, last, roster, draws))
    decreases |roster|
  {
    if roster != [] {
      var block := GenerateRaces(first, last, roster[0], draws[0]);
      var rest := GenerateAll(first, last, roster[1..], draws[1..]);
      GroupedInRosterOrder(first, last, roster[1..], draws[1..]);
      ShiftedOrder(roster, block, rest);
    }
  }

  /** A block of the first horse followed by rows in the order of the
      remaining roster is in roster order. */
  lemma ShiftedOrder(roster: seq<string>, first: seq<RaceRecord>, rest: seq<RaceRecord>)
    requires roster != [] && Distinct(roster)
    requires forall x :: x in first ==> x.name == roster[0]
    requires InRosterOrder(roster[1..], rest)
    ensures InRosterOrder(roster, first + rest)
  {
    var out := first + rest;
    forall x | x in rest
      ensures x.name in roster && IndexIn(roster, x.name) == 1 + IndexIn(roster[1..], x.name)
    {
      var k := IndexIn(roster[1..], x.name);
      assert roster[k + 1] == x.name;
    }
    forall i, j | 0 <= i <= j < |out|
      ensures IndexIn(roster, out[i].name) <= IndexIn(roster, out[j].name)
    {
      if i < |first| {
        assert out[i] in first;
      } else {
        assert out[i] == rest[i - |first|] && out[j] == rest[j - |first|];
        assert rest[i - |first|] in rest && rest[j - |first|] in rest;
      }
    }
  }

  /** Horse `roster[k]` has exactly `|draws[k]|` rows in the output. */
  lemma {:induction false} RowsPerHorse(first: int, last: int, roster: seq<string>, draws: seq<seq<RaceDraw>>, k: nat)
    requires |roster| == |draws| && ValidDraws(draws, first, last) && Distinct(roster)
    requires k < |roster|
    ensures |Select(GenerateAll(first, last, roster, draws), roster[k])| == |draws[k]|
    decreases |roster|
  {
    var block := GenerateRaces(first, last, roster[0], draws[0]);
    var rest := GenerateAll(first, last, roster[1..], draws[1..]);
    var p := NameIs(roster[k]);
    WhereAppend(block, rest, p);
    if k == 0 {
      WhereAllOrNone(block, p);
      forall x | x in rest ensures !p(x) {
        assert x.name in roster[1..];
      }
      WhereAllOrNone(rest, p);
    } else {
      forall x | x in block ensures !p(x) {
        assert roster[0] != roster[k];
      }
      WhereAllOrNone(block, p);
      assert roster[1..][k - 1] == roster[k];
      RowsPerHorse(first, last, roster[1..], draws[1..], k - 1);
    }
  }

  /** In a generated data set every horse of the roster has statistics, over
      between 10 and 20 starts: its own race count. */
  lemma EveryHorseHasStatistics(first: int, last: int, draws: seq<seq<RaceDraw>>, k: nat)
    requires |draws| == |Roster| && ValidDraws(draws, first, last) && ValidRaceCounts(draws)
    requires k < |Roster|
    ensures CalculateHorseStats(GenerateSampleData(first, last, draws), Roster[k]).Some?
    ensures CalculateHorseStats(GenerateSampleData(first, last, draws), Roster[k]).value.starts == |draws[k]|
    ensures MinRacesPerHorse <= |draws[k]| <= MaxRacesPerHorse
  {
    RosterDistinct();
    RowsPerHorse(first, last, Roster, draws, k);
  }

  /** The generated rows are grouped by horse in roster order. */
  lemma SampleDataGroupedByHorse(first: int, last: int, draws: seq<seq<RaceDraw>>)
    requires |draws| == |Roster| && ValidDraws(draws, first, last) && ValidRaceCounts(draws)
    ensures InRosterOrder(Roster, GenerateSampleData(first, last, draws))
  {
    RosterDistinct();
    GroupedInRosterOrder(first, last, Roster, draws);
  }
}
