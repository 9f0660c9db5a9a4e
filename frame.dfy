/** The DataFrame steps of `FotmobAPI.get_league_matches`: an empty frame with
    the 13 base columns, the built rows appended to it, the kick-off column
    reassigned, a `match_name` column added and then moved to the front. */
module Frame {
  import opened Errors
  import opened Json
  import opened MatchRows

  predicate Distinct(names: seq<string>)
  {
    forall i, j :: 0 <= i < j < |names| ==> names[i] != names[j]
  }

  /** The position of a column name (`Index.get_loc`). */
  function IndexOf(names: seq<string>, name: string): (k: nat)
    requires name in names
    ensures k < |names| && names[k] == name && name !in names[..k]
  {
    if names[0] == name then 0
    else
      var k := 1 + IndexOf(names[1..], name);
      assert names[..k] == [names[0]] + names[1..][..k - 1];
      k
  }

  /** A table whose columns are named and whose rows are kept in order; every
      row has a cell per column. */
  class Table {
    var columns: seq<string>
    var rows: seq<seq<Json>>

    predicate Valid()
      reads this
    {
      Distinct(columns) && forall i :: 0 <= i < |rows| ==> |rows[i]| == |columns|
    }

    /** The cells of one column, top to bottom (`df[name]`). */
    function Column(name: string): (cells: seq<Json>)
      reads this
      requires Valid() && name in columns
      ensures |cells| == |rows|
      ensures forall i :: 0 <= i < |rows| ==> cells[i] == rows[i][IndexOf(columns, name)]
    {
      var k := IndexOf(columns, name);
      var rs, width := rows, |columns|;
      seq(|rs|, i requires 0 <= i < |rs| && |rs[i]| == width => rs[i][k])
    }

    /** `pd.DataFrame(columns=names)`: no rows yet. */
    constructor(names: seq<string>)
      requires Distinct(names)
      ensures Valid() && columns == names && rows == []
    {
      columns := names;
      rows := [];
    }

    /** `pd.concat([df, pd.DataFrame(more, columns=df.columns)], ignore_index=True)`. */
    method AppendRows(more: seq<seq<Json>>)
      requires Valid()
      requires forall i :: 0 <= i < |more| ==> |more[i]| == |columns|
      modifies this
      ensures Valid() && columns == old(columns) && rows == old(rows) + more
    {
      rows := rows + more;
    }

    /** `df[name] = cells`: an existing column is overwritten in place, a new
        one is added as the last column. */
    method Assign(name: string, cells: seq<Json>)
      requires Valid() && |cells| == |rows|
      modifies this
      ensures Valid() && |rows| == old(|rows|)
      ensures name in old(columns) ==>
        && columns == old(columns)
        && forall i :: 0 <= i < |rows| ==> rows[i] == old(rows[i][IndexOf(columns, name) := cells[i]])
      ensures name !in old(columns) ==>
        && columns == old(columns) + [name]
        && forall i :: 0 <= i < |rows| ==> rows[i] == old(rows[i]) + [cells[i]]
    {
      if name in columns {
        var k := IndexOf(columns, name);
        var rs, width := rows, |columns|;
        rows := seq(|rs|, i requires 0 <= i < |rs| && |rs[i]| == width => rs[i][k := cells[i]]);
      } else {
        var rs := rows;
        rows := seq(|rs|, i requires 0 <= i < |rs| => rs[i] + [cells[i]]);
        columns := columns + [name];
      }
    }

    /** `df.pop(name)`: the column's cells, with the column removed. */
    method Pop(name: string) returns (cells: seq<Json>)
      requires Valid() && name in columns
      modifies this
      ensures Valid() && |rows| == old(|rows|)
      ensures var k := old(IndexOf(columns, name));
        && cells == old(Column(name))
        && columns == old(columns[..k] + columns[k + 1..])
        && forall i :: 0 <= i < |rows| ==> rows[i] == old(rows[i][..k] + rows[i][k + 1..])
    {
      var k := IndexOf(columns, name);
      cells := Column(name);
      var rs, width := rows, |columns|;
      rows := seq(|rs|, i requires 0 <= i < |rs| && |rs[i]| == width => rs[i][..k] + rs[i][k + 1..]);
      columns := columns[..k] + columns[k + 1..];
      DistinctWithout(old(columns), k);
    }

    /** `df.insert(at, name, cells)`: a new column at position `at`. */
    method Insert(at: nat, name: string, cells: seq<Json>)
      requires Valid() && at <= |columns| && name !in columns && |cells| == |rows|
      modifies this
      ensures Valid() && |rows| == old(|rows|)
      ensures columns == old(columns[..at] + [name] + columns[at..])
      ensures forall i :: 0 <= i < |rows| ==> rows[i] == old(rows[i][..at] + [cells[i]] + rows[i][at..])
    {
      var rs, width := rows, |columns|;
      rows := seq(|rs|, i requires 0 <= i < |rs| && |rs[i]| == width => rs[i][..at] + [cells[i]] + rs[i][at..]);
      columns := columns[..at] + [name] + columns[at..];
      DistinctWith(old(columns), at, name);
    }
  }

  /** `FotmobAPI.get_league_matches` after the response has been fetched:
      the built table is the one `LeagueTable` specifies, and every failure
      is the one it specifies. */
  method GetLeagueMatches(response: Json) returns (res: Result<Table>)
    ensures res.Ok? <==> LeagueTable(response).Ok?
    ensures res.Err? ==> res.error == LeagueTable(response).error
    ensures res.Ok? ==> fresh(res.value) && res.value.Valid()
                        && res.value.columns == OutputColumns && res.value.rows == LeagueTable(response).value
  {
    BaseColumnsDistinct();
    var t := new Table(BaseColumns);
    var matches :- MatchesList(response);
    var built :- BuildRows(response, matches);
    AppendBuilt(t, built);
    BaseColumnPositions();
    KickoffColumn(built, t.rows, t.Column("match_datetime"));
    var times :- NormalizeCells(t.Column("match_datetime"));
    ReplaceKickoffs(t, built, times);
    AddMatchName(t);
    FinishedRows(built, times, t.rows);
    return Ok(t);
  }

  /** After the rows are appended, `df['match_datetime']` is the rows' kick-off cells. */
  lemma KickoffColumn(built: seq<MatchRow>, rows: seq<seq<Json>>, column: seq<Json>)
    requires |rows| == |built| == |column|
    requires forall i :: 0 <= i < |built| ==> rows[i] == Cells(built[i]) && column[i] == rows[i][DatetimeIndex]
    ensures column == Datetimes(built)
  {
  }

  /** `pd.concat` of the frame with the built rows, one row of cells per match. */
  method AppendBuilt(t: Table, built: seq<MatchRow>)
    requires t.Valid() && |t.columns| == |BaseColumns| && t.rows == []
    modifies t
    ensures t.Valid() && t.columns == old(t.columns)
    ensures |t.rows| == |built| && forall i :: 0 <= i < |built| ==> t.rows[i] == Cells(built[i])
  {
    t.AppendRows(seq(|built|, i requires 0 <= i < |built| => Cells(built[i])));
  }

  /** `df['match_datetime'] = ...` with the normalised cells: each row's
      kick-off cell is replaced. */
  method ReplaceKickoffs(t: Table, built: seq<MatchRow>, times: seq<Json>)
    requires t.Valid() && "match_datetime" in t.columns && IndexOf(t.columns, "match_datetime") == DatetimeIndex
    requires |t.rows| == |built| == |times| && forall i :: 0 <= i < |built| ==> t.rows[i] == Cells(built[i])
    modifies t
    ensures t.Valid() && t.columns == old(t.columns) && |t.rows| == |built|
    ensures forall i :: 0 <= i < |built| ==> t.rows[i] == Cells(built[i].(matchDatetime := times[i]))
  {
    t.Assign("match_datetime", times);
  }

  /** `df['match_name'] = df['home_team'] + ' vs ' + df['away_team']`, then
      `df.insert(0, 'match_name', df.pop('match_name'))`: every row gains its
      match name as first cell, and the name column is the first column. */
  method AddMatchName(t: Table)
    requires t.Valid() && "home_team" in t.columns && "away_team" in t.columns && NameColumn !in t.columns
    modifies t
    ensures t.Valid() && t.columns == [NameColumn] + old(t.columns) && |t.rows| == old(|t.rows|)
    ensures var h, a := old(IndexOf(t.columns, "home_team")), old(IndexOf(t.columns, "away_team"));
      forall i :: 0 <= i < |t.rows| ==> t.rows[i] == [MatchName(old(t.rows[i][h]), old(t.rows[i][a]))] + old(t.rows[i])
  {
    var home, away := t.Column("home_team"), t.Column("away_team");
    var names := seq(|home|, i requires 0 <= i < |home| && |away| == |home| => MatchName(home[i], away[i]));
    t.Assign(NameColumn, names);
    IndexOfLast(old(t.columns), NameColumn);
    var popped := t.Pop(NameColumn);
    assert popped == names;
    t.Insert(0, NameColumn, popped);
  }

  /** The finished rows are exactly the ones `LeagueTable` specifies. */
  lemma FinishedRows(built: seq<MatchRow>, times: seq<Json>, rows: seq<seq<Json>>)
    requires |times| == |built| == |rows|
    requires forall i :: 0 <= i < |built| ==>
               var f := Cells(built[i].(matchDatetime := times[i]));
               rows[i] == [MatchName(f[HomeIndex], f[AwayIndex])] + f
    ensures rows == seq(|built|, i requires 0 <= i < |built| => OutputRow(built[i], times[i]))
  {
  }

  lemma DistinctWithout(names: seq<string>, k: nat)
    requires Distinct(names) && k < |names|
    ensures Distinct(names[..k] + names[k + 1..])
  {
    var r := names[..k] + names[k + 1..];
    assert forall i :: 0 <= i < |r| ==> r[i] == names[if i < k then i else i + 1];
  }

  lemma DistinctWith(names: seq<string>, at: nat, name: string)
    requires Distinct(names) && at <= |names| && name !in names
    ensures Distinct(names[..at] + [name] + names[at..])
  {
    var r := names[..at] + [name] + names[at..];
    assert forall i :: 0 <= i < |r| && i != at ==> r[i] == names[if i < at then i else i - 1];
  }

  lemma BaseColumnsDistinct()
    ensures Distinct(BaseColumns) && NameColumn !in BaseColumns
  {
  }

  lemma IndexOfLast(names: seq<string>, name: string)
    requires name !in names
    ensures IndexOf(names + [name], name) == |names|
  {
    var cs := names + [name];
    assert cs[..|names|] == names;
  }

  lemma BaseColumnPositions()
    ensures IndexOf(BaseColumns, "match_datetime") == DatetimeIndex
    ensures IndexOf(BaseColumns, "home_team") == HomeIndex
    ensures IndexOf(BaseColumns, "away_team") == AwayIndex
    ensures "match_datetime" in BaseColumns && "home_team" in BaseColumns && "away_team" in BaseColumns
  {
  }
}
