/** The race-result record shared by the generator, the filter and the statistics.

    A record is one horse's result in one race.  Calendar dates are modelled as
    integer day numbers (larger is later); the formatted race time and the weight
    carried are not modelled.
 */
module Records {

  /** Absence of a value, as `None` is returned by the statistics function. */
  datatype Option<+T> = None | Some(value: T)

  datatype RaceRecord = RaceRecord(
    name: string,        // horse name
    date: int,           // race day number
    venue: string,       // racecourse
    distance: int,       // metres
    finish: int,         // finishing position, 1 = winner
    fieldSize: int,      // number of starters
    track: string,       // track condition
    weather: string,
    jockey: string,
    popularity: int,     // betting-favourite rank, 1 = most favoured
    odds: real,
    prize: int           // prize money, in units of 10,000 yen
  )

  /** Projections used as function values by the statistics. */
  function Prize(r: RaceRecord): int { r.prize }

  function FinishReal(r: RaceRecord): real { r.finish as real }

  function Odds(r: RaceRecord): real { r.odds }
}
