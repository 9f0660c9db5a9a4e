/** The table `FotmobAPI.get_league_matches` builds from a decoded league
    response, as a pure specification: the list comprehension that turns each
    match object into a 13-cell row, the normalised kick-off column, and the
    derived `match_name` column placed first. */
module MatchRows {
  import opened Errors
  import opened Json
  import Timestamp

  /** The DataFrame's columns, in the order the rows fill them. */
  const BaseColumns: seq<string> := ["id", "match_datetime", "home_team", "home_team_id", "away_team",
                                     "away_team_id", "league_id", "season_id", "Round", "match_uri",
                                     "finished", "started", "cancelled"]
  /** The derived column, moved to the front of the finished table. */
  const NameColumn: string := "match_name"
  const OutputColumns: seq<string> := [NameColumn] + BaseColumns
  /** Positions of the columns the derivations read and write. */
  const DatetimeIndex: nat := 1
  const HomeIndex: nat := 2
  const AwayIndex: nat := 4

  /** One row of the comprehension, a cell per base column. */
  datatype MatchRow = MatchRow(
    id: Json, matchDatetime: Json, homeTeam: Json, homeTeamId: Json, awayTeam: Json, awayTeamId: Json,
    leagueId: Json, seasonId: Json, round: Json, matchUri: Json, finished: Json, started: Json,
    cancelled: Json)

  /** The row's cells in column order. */
  function Cells(r: MatchRow): (cells: seq<Json>)
    ensures |cells| == |BaseColumns|
    ensures cells[DatetimeIndex] == r.matchDatetime && cells[HomeIndex] == r.homeTeam && cells[AwayIndex] == r.awayTeam
  {
    [r.id, r.matchDatetime, r.homeTeam, r.homeTeamId, r.awayTeam, r.awayTeamId, r.leagueId, r.seasonId,
     r.round, r.matchUri, r.finished, r.started, r.cancelled]
  }

  /** `league_matches['matches']['allMatches']`, then iterated by the
      comprehension: a TypeError for a value that is not a dict, a KeyError
      for a missing key, and otherwise what iterating `allMatches` yields. */
  function MatchesList(response: Json): (r: Result<seq<Json>>)
    ensures !response.JObject? ==> r == Err(NotSubscriptable)
    ensures response.JObject? && !HasKey(response.members, "matches") ==> r == Err(MissingKey("matches"))
    ensures var m := Path(response, ["matches"]);
      response.JObject? && HasKey(response.members, "matches") ==>
        && (!m.JObject? ==> r == Err(NotSubscriptable))
        && (m.JObject? && !HasKey(m.members, "allMatches") ==> r == Err(MissingKey("allMatches")))
        && (m.JObject? && HasKey(m.members, "allMatches") ==> r == Iterate(Path(response, ["matches", "allMatches"])))
    ensures var a := Path(response, ["matches", "allMatches"]);
      a.JList? ==> r == Ok(a.items)
  {
    var matches :- Subscript(response, "matches");
    assert ["matches"][1..] == [] && ["matches", "allMatches"][1..] == ["allMatches"];
    assert Path(response, ["matches"]) == Path(matches, []) == matches;
    assert Path(response, ["matches", "allMatches"]) == Path(matches, ["allMatches"]);
    var all :- Subscript(matches, "allMatches");
    assert ["allMatches"][1..] == [] && Path(matches, ["allMatches"]) == Path(all, []) == all;
    Iterate(all)
  }

  /** `.get(key, {})` succeeds on a dict and leaves something whose own `.get` succeeds. */
  predicate NestedDict(d: Json, key: string)
  {
    d.JObject? && (!HasKey(d.members, key) || Lookup(d.members, key).value.JObject?)
  }

  /** The comprehension's body for one match: every cell is a `.get`, nested
      ones through `.get(key, {})`. The cells are evaluated left to right; the
      first `.get` on a value that is not a dict raises, and every such
      failure is the same AttributeError, so only the dicts that are tested
      matter: the match, its `status`, `home` and `away`, the response and its
      `details`. */
  function RowOf(response: Json, m: Json): (r: Result<MatchRow>)
    ensures r.Ok? <==> m.JObject? && NestedDict(m, "status") && NestedDict(m, "home") && NestedDict(m, "away")
                       && NestedDict(response, "details")
    ensures r.Err? ==> r.error == NoGetMethod
  {
    if !m.JObject? then Err(NoGetMethod)
    else
      var status := Get(m, "status", EmptyObject).value;
      if !status.JObject? then Err(NoGetMethod)
      else
        var home := Get(m, "home", EmptyObject).value;
        if !home.JObject? then Err(NoGetMethod)
        else
          var away := Get(m, "away", EmptyObject).value;
          if !away.JObject? then Err(NoGetMethod)
          else if !response.JObject? then Err(NoGetMethod)
          else
            var details := Get(response, "details", EmptyObject).value;
            if !details.JObject? then Err(NoGetMethod)
            else
              Ok(MatchRow(
                Get(m, "id", JNull).value, Get(status, "utcTime", JNull).value,
                Get(home, "name", JNull).value, Get(home, "id", JNull).value,
                Get(away, "name", JNull).value, Get(away, "id", JNull).value,
                Get(details, "id", JNull).value, Get(details, "selectedSeason", JNull).value,
                Get(m, "round", JNull).value, Get(m, "pageUrl", JNull).value,
                Get(status, "finished", JNull).value, Get(status, "started", JNull).value,
                Get(status, "cancelled", JNull).value))
  }

  /** The list comprehension: a row per match, in order, or the error of the
      first match whose row cannot be built. */
  function BuildRows(response: Json, matches: seq<Json>): (r: Result<seq<MatchRow>>)
    ensures r.Ok? <==> forall i :: 0 <= i < |matches| ==> RowOf(response, matches[i]).Ok?
    ensures r.Ok? ==> |r.value| == |matches|
                      && forall i :: 0 <= i < |matches| ==> r.value[i] == RowOf(response, matches[i]).value
    ensures r.Err? ==> r.error == NoGetMethod
  {
    if matches == [] then Ok([])
    else
      var first :- RowOf(response, matches[0]);
      var rest :- BuildRows(response, matches[1..]);
      Ok([first] + rest)
  }

  /** `add_hours_and_format` applied to one cell. A cell that is not a string
      raises a TypeError: null, booleans and numbers at the `"." in utc_time`
      test, lists and dicts at the `strptime` call that follows it. */
  function NormalizeCell(c: Json): (r: Result<Json>)
    ensures r.Ok? <==> c.JString? && Timestamp.AddHoursAndFormat(c.s).Ok?
    ensures r.Ok? ==> r.value == JString(Timestamp.AddHoursAndFormat(c.s).value)
    ensures r.Err? ==> r.error == (if c.JString? then Timestamp.AddHoursAndFormat(c.s).error else NotAString)
  {
    if !c.JString? then Err(NotAString)
    else
      var t :- Timestamp.AddHoursAndFormat(c.s);
      Ok(JString(t))
  }

  /** Each cell normalised on its own. */
  function NormalizeEach(cells: seq<Json>): (rs: seq<Result<Json>>)
    ensures |rs| == |cells| && forall i :: 0 <= i < |cells| ==> rs[i] == NormalizeCell(cells[i])
  {
    seq(|cells|, i requires 0 <= i < |cells| => NormalizeCell(cells[i]))
  }

  /** `Series.apply(add_hours_and_format)`: every cell normalised in order;
      the first failure aborts with its error and no column is produced. */
  function NormalizeCells(cells: seq<Json>): (r: Result<seq<Json>>)
    ensures r.Ok? <==> forall i :: 0 <= i < |cells| ==> NormalizeCell(cells[i]).Ok?
    ensures r.Ok? ==> |r.value| == |cells|
                      && forall i :: 0 <= i < |cells| ==> r.value[i] == NormalizeCell(cells[i]).value
    ensures r.Err? ==> var k := FirstErr(NormalizeEach(cells));
                       && k < |cells| && r.error == NormalizeCell(cells[k]).error
                       && forall i :: 0 <= i < k ==> NormalizeCell(cells[i]).Ok?
  {
    Collect(NormalizeEach(cells))
  }

  /** `home_team + ' vs ' + away_team` for one row; a missing name gives null. */
  function MatchName(home: Json, away: Json): (r: Json)
    ensures r.JString? <==> home.JString? && away.JString?
    ensures r.JString? ==> r.s == home.s + " vs " + away.s
  {
    if home.JString? && away.JString? then JString(home.s + " vs " + away.s) else JNull
  }

  /** The kick-off cells of a sequence of rows, as the `match_datetime` column holds them. */
  function Datetimes(rows: seq<MatchRow>): (cells: seq<Json>)
    ensures |cells| == |rows| && forall i :: 0 <= i < |rows| ==> cells[i] == rows[i].matchDatetime
  {
    seq(|rows|, i requires 0 <= i < |rows| => rows[i].matchDatetime)
  }

  /** A finished row: its name, then its base cells with the kick-off replaced. */
  function OutputRow(r: MatchRow, time: Json): (o: seq<Json>)
    ensures |o| == |OutputColumns| && o[0] == MatchName(o[3], o[5]) && o[2] == time
  {
    [MatchName(r.homeTeam, r.awayTeam)] + Cells(r.(matchDatetime := time))
  }

  /** The cells of a finished row, position by position under `OutputColumns`. */
  lemma OutputRowCells(r: MatchRow, time: Json)
    ensures var o := OutputRow(r, time);
      && |o| == |OutputColumns| && o[0] == MatchName(r.homeTeam, r.awayTeam)
      && o[1] == r.id && o[2] == time && o[3] == r.homeTeam && o[4] == r.homeTeamId
      && o[5] == r.awayTeam && o[6] == r.awayTeamId && o[7] == r.leagueId && o[8] == r.seasonId
      && o[9] == r.round && o[10] == r.matchUri && o[11] == r.finished && o[12] == r.started
      && o[13] == r.cancelled
  {
  }

  /** The finished table, rows of cells under `OutputColumns`. A response
      whose `allMatches` cannot be reached fails with that error before any
      row is built. */
  function LeagueTable(response: Json): (r: Result<seq<seq<Json>>>)
    ensures MatchesList(response).Err? ==> r == Err(MatchesList(response).error)
    ensures r.Ok? ==> MatchesList(response).Ok? && |r.value| == |MatchesList(response).value|
    ensures r.Ok? ==> forall i :: 0 <= i < |r.value| ==>
                        |r.value[i]| == |OutputColumns| && r.value[i][0] == MatchName(r.value[i][3], r.value[i][5])
  {
    var matches :- MatchesList(response);
    var rows :- BuildRows(response, matches);
    var times :- NormalizeCells(Datetimes(rows));
    Ok(seq(|rows|, i requires 0 <= i < |rows| => OutputRow(rows[i], times[i])))
  }

  // ----- Properties of the table -----

  /** A table that was built went through every stage, and holds a finished
      row per built row. */
  lemma TableStages(response: Json)
    requires LeagueTable(response).Ok?
    ensures MatchesList(response).Ok?
    ensures var rows := BuildRows(response, MatchesList(response).value);
      && rows.Ok? && NormalizeCells(Datetimes(rows.value)).Ok?
      && var t := LeagueTable(response).value;
      && var times := NormalizeCells(Datetimes(rows.value)).value;
      && |t| == |rows.value| == |MatchesList(response).value|
      && forall i :: 0 <= i < |t| ==> t[i] == OutputRow(rows.value[i], times[i])
  {
  }

  /** Each cell of a built row is the null-safe path lookup in its match (or,
      for the league and season, in the response's `details`). */
  lemma RowFieldsArePaths(response: Json, m: Json)
    requires RowOf(response, m).Ok?
    ensures var r := RowOf(response, m).value;
      && r.id == Path(m, ["id"]) && r.matchDatetime == Path(m, ["status", "utcTime"])
      && r.homeTeam == Path(m, ["home", "name"]) && r.homeTeamId == Path(m, ["home", "id"])
      && r.awayTeam == Path(m, ["away", "name"]) && r.awayTeamId == Path(m, ["away", "id"])
      && r.leagueId == Path(response, ["details", "id"])
      && r.seasonId == Path(response, ["details", "selectedSeason"])
      && r.round == Path(m, ["round"]) && r.matchUri == Path(m, ["pageUrl"])
      && r.finished == Path(m, ["status", "finished"]) && r.started == Path(m, ["status", "started"])
      && r.cancelled == Path(m, ["status", "cancelled"])
  {
    SingleGetIsPath(m, "id");
    SingleGetIsPath(m, "round");
    SingleGetIsPath(m, "pageUrl");
    NestedGetIsPath(m, "status", "utcTime");
    NestedGetIsPath(m, "status", "finished");
    NestedGetIsPath(m, "status", "started");
    NestedGetIsPath(m, "status", "cancelled");
    NestedGetIsPath(m, "home", "name");
    NestedGetIsPath(m, "home", "id");
    NestedGetIsPath(m, "away", "name");
    NestedGetIsPath(m, "away", "id");
    NestedGetIsPath(response, "details", "id");
    NestedGetIsPath(response, "details", "selectedSeason");
  }

  lemma SingleGetIsPath(v: Json, key: string)
    requires v.JObject?
    ensures Get(v, key, JNull).value == Path(v, [key])
  {
    assert [key][1..] == [];
  }

  /** An absent key yields a null cell rather than a failure: a match without
      `status`, `home` or `away`, a response without `details`, or a match
      without one of its own keys. */
  lemma AbsentKeysAreNull(response: Json, m: Json)
    requires RowOf(response, m).Ok?
    ensures var r := RowOf(response, m).value;
      && (!HasKey(m.members, "status") ==>
            r.matchDatetime == JNull && r.finished == JNull && r.started == JNull && r.cancelled == JNull)
      && (!HasKey(m.members, "home") ==> r.homeTeam == JNull && r.homeTeamId == JNull)
      && (!HasKey(m.members, "away") ==> r.awayTeam == JNull && r.awayTeamId == JNull)
      && (!HasKey(response.members, "details") ==> r.leagueId == JNull && r.seasonId == JNull)
      && (!HasKey(m.members, "id") ==> r.id == JNull)
      && (!HasKey(m.members, "round") ==> r.round == JNull)
      && (!HasKey(m.members, "pageUrl") ==> r.matchUri == JNull)
  {
    RowFieldsArePaths(response, m);
    if !HasKey(m.members, "status") {
      AbsentKeyIsNull(m, "status", ["utcTime"]);
      AbsentKeyIsNull(m, "status", ["finished"]);
      AbsentKeyIsNull(m, "status", ["started"]);
      AbsentKeyIsNull(m, "status", ["cancelled"]);
    }
    if !HasKey(m.members, "home") {
      AbsentKeyIsNull(m, "home", ["name"]);
      AbsentKeyIsNull(m, "home", ["id"]);
    }
    if !HasKey(m.members, "away") {
      AbsentKeyIsNull(m, "away", ["name"]);
      AbsentKeyIsNull(m, "away", ["id"]);
    }
    if !HasKey(response.members, "details") {
      AbsentKeyIsNull(response, "details", ["id"]);
      AbsentKeyIsNull(response, "details", ["selectedSeason"]);
    }
    if !HasKey(m.members, "id") { AbsentKeyIsNull(m, "id", []); }
    if !HasKey(m.members, "round") { AbsentKeyIsNull(m, "round", []); }
    if !HasKey(m.members, "pageUrl") { AbsentKeyIsNull(m, "pageUrl", []); }
  }

  /** The null-safety covers only absent keys: a `status`, `home` or `away`
      that is present but null (or any other non-object) makes `.get` fail. */
  lemma PresentNullAborts(response: Json, m: Json, key: string)
    requires m.JObject? && key in ["status", "home", "away"]
    requires HasKey(m.members, key) && !Lookup(m.members, key).value.JObject?
    ensures RowOf(response, m) == Err(NoGetMethod)
  {
  }

  /** `details` is read inside the comprehension, once per match: one that is
      present but not a dict makes the first match's row, and so the build,
      fail with an AttributeError, while an empty `allMatches` never reads it
      and gives an empty table. */
  lemma PresentNullDetails(response: Json)
    requires MatchesList(response).Ok?
    requires response.JObject? && HasKey(response.members, "details")
    requires !Lookup(response.members, "details").value.JObject?
    ensures |MatchesList(response).value| > 0 ==> LeagueTable(response) == Err(NoGetMethod)
    ensures |MatchesList(response).value| == 0 ==> LeagueTable(response) == Ok([])
  {
    var matches := MatchesList(response).value;
    if |matches| > 0 {
      assert RowOf(response, matches[0]).Err?;
    } else {
      assert BuildRows(response, matches) == Ok([]);
      assert NormalizeCells([]) == Ok([]);
    }
  }

  /** The table has a row per entry of `matches.allMatches`, in order, each
      row as wide as `OutputColumns`, its cells read from that match. */
  lemma {:induction false} OneRowPerMatch(response: Json)
    requires LeagueTable(response).Ok?
    ensures var t := LeagueTable(response).value; var matches := MatchesList(response).value;
      && MatchesList(response).Ok?
      && |t| == |matches|
      && forall i :: 0 <= i < |t| ==>
           && |t[i]| == |OutputColumns|
           && t[i][1] == Path(matches[i], ["id"])
           && t[i][3] == Path(matches[i], ["home", "name"]) && t[i][5] == Path(matches[i], ["away", "name"])
           && t[i][9] == Path(matches[i], ["round"]) && t[i][10] == Path(matches[i], ["pageUrl"])
  {
    TableStages(response);
    var matches := MatchesList(response).value;
    var rows := BuildRows(response, matches).value;
    var times := NormalizeCells(Datetimes(rows)).value;
    var t := LeagueTable(response).value;
    forall i | 0 <= i < |t|
      ensures |t[i]| == |OutputColumns|
      ensures t[i][1] == Path(matches[i], ["id"])
      ensures t[i][3] == Path(matches[i], ["home", "name"]) && t[i][5] == Path(matches[i], ["away", "name"])
      ensures t[i][9] == Path(matches[i], ["round"]) && t[i][10] == Path(matches[i], ["pageUrl"])
    {
      OutputRowCells(rows[i], times[i]);
      RowFieldsArePaths(response, matches[i]);
    }
  }

  /** `league_id` and `season_id` are `details.id` and `details.selectedSeason`
      of the response, the same in every row. */
  lemma {:induction false} LeagueColumnsFromDetails(response: Json)
    requires LeagueTable(response).Ok?
    ensures var t := LeagueTable(response).value;
      && (forall i :: 0 <= i < |t| ==>
            |t[i]| == |OutputColumns|
            && t[i][7] == Path(response, ["details", "id"])
            && t[i][8] == Path(response, ["details", "selectedSeason"]))
      && (forall i, j :: 0 <= i < |t| && 0 <= j < |t| ==> t[i][7] == t[j][7] && t[i][8] == t[j][8])
  {
    TableStages(response);
    var matches := MatchesList(response).value;
    var rows := BuildRows(response, matches).value;
    var times := NormalizeCells(Datetimes(rows)).value;
    var t := LeagueTable(response).value;
    forall i | 0 <= i < |t|
      ensures |t[i]| == |OutputColumns|
      ensures t[i][7] == Path(response, ["details", "id"])
      ensures t[i][8] == Path(response, ["details", "selectedSeason"])
    {
      OutputRowCells(rows[i], times[i]);
      RowFieldsArePaths(response, matches[i]);
    }
  }

  /** The kick-off column holds each match's `status.utcTime` normalised:
      every one of them was a string that `add_hours_and_format` accepted. */
  lemma {:induction false} KickoffsNormalized(response: Json)
    requires LeagueTable(response).Ok?
    ensures var t := LeagueTable(response).value; var matches := MatchesList(response).value;
      && MatchesList(response).Ok? && |t| == |matches|
      && forall i :: 0 <= i < |t| ==>
           var utc := Path(matches[i], ["status", "utcTime"]);
           && utc.JString? && Timestamp.AddHoursAndFormat(utc.s).Ok?
           && |t[i]| == |OutputColumns| && t[i][2] == JString(Timestamp.AddHoursAndFormat(utc.s).value)
  {
    TableStages(response);
    var matches := MatchesList(response).value;
    var rows := BuildRows(response, matches).value;
    var times := NormalizeCells(Datetimes(rows)).value;
    var t := LeagueTable(response).value;
    forall i | 0 <= i < |t|
      ensures var utc := Path(matches[i], ["status", "utcTime"]);
        && utc.JString? && Timestamp.AddHoursAndFormat(utc.s).Ok?
        && |t[i]| == |OutputColumns| && t[i][2] == JString(Timestamp.AddHoursAndFormat(utc.s).value)
    {
      OutputRowCells(rows[i], times[i]);
      RowFieldsArePaths(response, matches[i]);
      assert Datetimes(rows)[i] == rows[i].matchDatetime;
    }
  }

  /** `match_name` is the first column, and for every row whose names are
      both present it reads "<home> vs <away>" of the row's own team cells. */
  lemma {:induction false} MatchNameFirst(response: Json)
    requires LeagueTable(response).Ok?
    ensures var t := LeagueTable(response).value;
      forall i :: 0 <= i < |t| ==>
        && |t[i]| == |OutputColumns| && OutputColumns[0] == NameColumn
        && t[i][0] == MatchName(t[i][3], t[i][5])
        && (t[i][3].JString? && t[i][5].JString? ==> t[i][0] == JString(t[i][3].s + " vs " + t[i][5].s))
  {
    TableStages(response);
    var matches := MatchesList(response).value;
    var rows := BuildRows(response, matches).value;
    var times := NormalizeCells(Datetimes(rows)).value;
    var t := LeagueTable(response).value;
    forall i | 0 <= i < |t|
      ensures |t[i]| == |OutputColumns| && t[i][0] == MatchName(t[i][3], t[i][5])
    {
      OutputRowCells(rows[i], times[i]);
    }
  }

  /** One kick-off time that cannot be normalised makes the whole build fail,
      with the error of the first such match: there is no partial table. */
  lemma {:induction false} KickoffFailureAborts(response: Json, k: nat)
    requires MatchesList(response).Ok?
    requires var matches := MatchesList(response).value;
      && BuildRows(response, matches).Ok?
      && k < |matches|
      && NormalizeCell(Path(matches[k], ["status", "utcTime"])).Err?
      && forall i :: 0 <= i < k ==> NormalizeCell(Path(matches[i], ["status", "utcTime"])).Ok?
    ensures LeagueTable(response) == Err(NormalizeCell(Path(MatchesList(response).value[k], ["status", "utcTime"])).error)
  {
    var matches := MatchesList(response).value;
    var cells := Datetimes(BuildRows(response, matches).value);
    KickoffCellsArePaths(response, matches);
    var es := NormalizeEach(cells);
    assert es[k].Err? && forall i :: 0 <= i < k ==> es[i].Ok?;
    FirstErrAt(es, k);
  }

  /** The kick-off column before normalisation holds each match's `status.utcTime`. */
  lemma KickoffCellsArePaths(response: Json, matches: seq<Json>)
    requires BuildRows(response, matches).Ok?
    ensures var cells := Datetimes(BuildRows(response, matches).value);
      |cells| == |matches| && forall i :: 0 <= i < |matches| ==> cells[i] == Path(matches[i], ["status", "utcTime"])
  {
    var cells := Datetimes(BuildRows(response, matches).value);
    forall i | 0 <= i < |matches|
      ensures cells[i] == Path(matches[i], ["status", "utcTime"])
    {
      RowFieldsArePaths(response, matches[i]);
    }
  }

  /** A match without `status.utcTime` gets a null kick-off, which the
      normaliser refuses: the build fails with a TypeError. */
  lemma {:induction false} MissingKickoffAborts(response: Json, k: nat)
    requires MatchesList(response).Ok?
    requires var matches := MatchesList(response).value;
      && BuildRows(response, matches).Ok?
      && k < |matches|
      && Path(matches[k], ["status", "utcTime"]) == JNull
      && forall i :: 0 <= i < k ==> NormalizeCell(Path(matches[i], ["status", "utcTime"])).Ok?
    ensures LeagueTable(response) == Err(NotAString)
  {
    KickoffFailureAborts(response, k);
  }

  /** Malformed responses: no `matches` key, no `allMatches` key, or an
      `allMatches` that is a number, a boolean or null. */
  lemma MalformedResponses(response: Json)
    ensures !response.JObject? ==> LeagueTable(response) == Err(NotSubscriptable)
    ensures response.JObject? && !HasKey(response.members, "matches") ==> LeagueTable(response) == Err(MissingKey("matches"))
    ensures var m := Subscript(response, "matches");
      m.Ok? && m.value.JObject? && !HasKey(m.value.members, "allMatches") ==> LeagueTable(response) == Err(MissingKey("allMatches"))
    ensures var m := Subscript(response, "matches");
      m.Ok? && Subscript(m.value, "allMatches").Ok?
      && (var a := Subscript(m.value, "allMatches").value; a.JNull? || a.JBool? || a.JInt?)
      ==> LeagueTable(response) == Err(NotIterable)
  {
  }
}
