/** The race-history tab: one horse's filtered rows, newest race first. */
module Detail {
  import opened Records
  import opened Rows
  import opened Stats
  import opened RowFilter

  /** Race days never increase from one row to the next. */
  predicate NewestFirst(rows: seq<RaceRecord>)
  {
    forall i, j :: 0 <= i < j < |rows| ==> rows[i].date >= rows[j].date
  }

  /** Places `x` in front of the first row that is not newer than it. */
  function InsertByDate(x: RaceRecord, rows: seq<RaceRecord>): (out: seq<RaceRecord>)
    requires NewestFirst(rows)
    ensures NewestFirst(out)
    ensures multiset(out) == multiset(rows) + multiset{x}
    ensures |out| == |rows| + 1
  {
    if rows == [] || x.date >= rows[0].date then
      [x] + rows
    else
      var rest := InsertByDate(x, rows[1..]);
      assert rows == [rows[0]] + rows[1..];
      assert forall y :: y in rest ==> rows[0].date >= y.date by {
        forall y | y in rest ensures rows[0].date >= y.date {
          assert y in multiset(rest);
          if y != x {
            var k :| 0 <= k < |rows[1..]| && rows[1..][k] == y;
            assert rows[k + 1] == y;
          }
        }
      }
      PrependNewest(rows[0], rest);
      [rows[0]] + rest
  }

  lemma PrependNewest(y: RaceRecord, rows: seq<RaceRecord>)
    requires NewestFirst(rows)
    requires forall z :: z in rows ==> y.date >= z.date
    ensures NewestFirst([y] + rows)
  {
    var out := [y] + rows;
    forall i, j | 0 <= i < j < |out| ensures out[i].date >= out[j].date {
      assert out[j] == rows[j - 1];
      if i > 0 {
        assert out[i] == rows[i - 1];
      }
    }
  }

  /** The history ordering of dashboard.py:264: the same rows, newest first.
      Rows of equal date may come out in any order. */
  function SortNewestFirst(rows: seq<RaceRecord>): (out: seq<RaceRecord>)
    ensures NewestFirst(out)
    ensures multiset(out) == multiset(rows)
  {
    if rows == [] then []
    else
      assert rows == [rows[0]] + rows[1..];
      InsertByDate(rows[0], SortNewestFirst(rows[1..]))
  }

  /** The rows of the horse chosen for the detail view, newest first. */
  function DetailView(filtered: seq<RaceRecord>, name: string): (out: seq<RaceRecord>)
    ensures NewestFirst(out)
    ensures multiset(out) == multiset(Select(filtered, name))
    ensures forall x :: x in out <==> x in filtered && x.name == name
  {
    var horse := Select(filtered, name);
    var out := SortNewestFirst(horse);
    assert forall x :: x in out <==> x in horse by {
      forall x ensures x in out <==> x in horse {
        assert x in out <==> x in multiset(out);
        assert x in horse <==> x in multiset(horse);
      }
    }
    out
  }

  /** The detail view of a filtered table shows exactly the chosen horse's rows
      that the sidebar admits, each as often as in the table; a horse outside
      the sidebar selection shows nothing. */
  lemma DetailOfFilteredTable(rows: seq<RaceRecord>, horses: set<string>, venues: set<string>,
                              dates: DateInput, name: string)
    ensures var out := DetailView(FilterRows(rows, horses, venues, dates), name);
            forall x :: multiset(out)[x]
                        == if && x.name == name
                              && name in horses
                              && x.venue in venues
                              && (dates.TwoDates? ==> dates.lo <= x.date <= dates.hi)
                           then multiset(rows)[x] else 0
    ensures name !in horses ==> DetailView(FilterRows(rows, horses, venues, dates), name) == []
  {
    var filtered := FilterRows(rows, horses, venues, dates);
    FilterKeepsOrderAndMultiplicity(rows, horses, venues, dates);
    WhereMultiset(filtered, NameIs(name));
    if name !in horses {
      WhereAllOrNone(filtered, NameIs(name));
    }
  }

  /** The history table lists as many races as the summary card counts starts. */
  lemma DetailLengthIsStarts(filtered: seq<RaceRecord>, name: string)
    ensures |DetailView(filtered, name)| == StartsOf(CalculateHorseStats(filtered, name))
  {
    var out := DetailView(filtered, name);
    assert |out| == |multiset(out)| == |multiset(Select(filtered, name))| == |Select(filtered, name)|;
  }
}
