/** The sidebar filter of the dashboard: keep the rows whose horse and venue
    were selected and whose race day lies in the selected date range.
 */
module RowFilter {
  import opened Records
  import opened Rows

  /** What the date-range widget returns: no date, a single date while the
      user is still picking, or a complete (start, end) pair. */
  datatype DateInput = NoDates | OneDate(day: int) | TwoDates(lo: int, hi: int)

  /** The date part of the mask: an inclusive day range. */
  function InDateRange(lo: int, hi: int): RaceRecord -> bool
  {
    (r: RaceRecord) => lo <= r.date && r.date <= hi
  }

  /** The full mask.  Only a complete pair of dates restricts the race day;
      with fewer bounds the date condition is dropped altogether. */
  function Mask(horses: set<string>, venues: set<string>, dates: DateInput): RaceRecord -> bool
  {
    match dates
    case TwoDates(lo, hi) =>
      (r: RaceRecord) => r.name in horses && lo <= r.date && r.date <= hi && r.venue in venues
    case _ =>
      (r: RaceRecord) => r.name in horses && r.venue in venues
  }

  /** The rows of the table that the sidebar selection admits, in table order. */
  function FilterRows(rows: seq<RaceRecord>, horses: set<string>, venues: set<string>, dates: DateInput)
    : (out: seq<RaceRecord>)
    ensures forall x :: x in out <==>
              && x in rows
              && x.name in horses
              && x.venue in venues
              && (dates.TwoDates? ==> dates.lo <= x.date <= dates.hi)
  {
    Where(rows, Mask(horses, venues, dates))
  }

  /** The filter keeps every admitted row as often as it occurs, and in table order. */
  lemma FilterKeepsOrderAndMultiplicity(rows: seq<RaceRecord>, horses: set<string>, venues: set<string>,
                                        dates: DateInput)
    ensures IsSubsequence(FilterRows(rows, horses, venues, dates), rows)
    ensures forall x :: multiset(FilterRows(rows, horses, venues, dates))[x]
                        == if && x.name in horses
                              && x.venue in venues
                              && (dates.TwoDates? ==> dates.lo <= x.date <= dates.hi)
                           then multiset(rows)[x] else 0
  {
    WhereIsSubsequence(rows, Mask(horses, venues, dates));
    WhereMultiset(rows, Mask(horses, venues, dates));
  }

  /** Filtering an already filtered table with the same selection changes nothing. */
  lemma FilterIdempotent(rows: seq<RaceRecord>, horses: set<string>, venues: set<string>, dates: DateInput)
    ensures FilterRows(FilterRows(rows, horses, venues, dates), horses, venues, dates)
            == FilterRows(rows, horses, venues, dates)
  {
    WhereIdempotent(rows, Mask(horses, venues, dates));
  }

  /** With fewer than two dates the result is the horse-and-venue filter alone. */
  lemma IncompleteDatesIgnored(rows: seq<RaceRecord>, horses: set<string>, venues: set<string>,
                               dates: DateInput)
    requires !dates.TwoDates?
    ensures FilterRows(rows, horses, venues, dates) == FilterRows(rows, horses, venues, NoDates)
  {
  }

  /** A complete date range narrows the horse-and-venue filter: it is that
      filter followed by the day-range filter, hence a subsequence of it. */
  lemma DateRangeNarrows(rows: seq<RaceRecord>, horses: set<string>, venues: set<string>, lo: int, hi: int)
    ensures FilterRows(rows, horses, venues, TwoDates(lo, hi))
            == Where(FilterRows(rows, horses, venues, NoDates), InDateRange(lo, hi))
    ensures IsSubsequence(FilterRows(rows, horses, venues, TwoDates(lo, hi)),
                          FilterRows(rows, horses, venues, NoDates))
  {
    WhereConjunction(rows, Mask(horses, venues, NoDates), InDateRange(lo, hi),
                     Mask(horses, venues, TwoDates(lo, hi)));
    WhereIsSubsequence(FilterRows(rows, horses, venues, NoDates), InDateRange(lo, hi));
  }

  /** Selecting more horses and more venues never loses a row, nor reorders any. */
  lemma WiderSelectionKeepsMore(rows: seq<RaceRecord>, horses: set<string>, venues: set<string>,
                                moreHorses: set<string>, moreVenues: set<string>, dates: DateInput)
    requires horses <= moreHorses && venues <= moreVenues
    ensures IsSubsequence(FilterRows(rows, horses, venues, dates),
                          FilterRows(rows, moreHorses, moreVenues, dates))
  {
    var wide := Mask(moreHorses, moreVenues, dates);
    var narrow := Mask(horses, venues, dates);
    WhereConjunction(rows, wide, narrow, narrow);
    WhereIsSubsequence(Where(rows, wide), narrow);
  }

  /** A one-day range on which no race was run selects nothing (an empty
      table, not an error). */
  lemma EmptyDayRange(rows: seq<RaceRecord>, horses: set<string>, venues: set<string>, day: int)
    requires forall x :: x in rows ==> x.date != day
    ensures FilterRows(rows, horses, venues, TwoDates(day, day)) == []
  {
    WhereAllOrNone(rows, Mask(horses, venues, TwoDates(day, day)));
  }
}
