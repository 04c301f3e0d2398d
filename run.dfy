/** The script that fills the SVG template (run.py): for each youth team, given the
    fixture rows that fall into the current week, it blanks or fills the team's
    date, opponent and time fields. The SVG document is reduced to the text of each
    element id; CSV loading and the week filter happen before this model starts. */
module Run {
  import opened Wrappers
  import opened Strings
  import Teams

  const YOUTH_TEAMS: seq<string> := ["U17", "U15", "U13", "U11", "U9"]
  const CURRENT_WEEK: int := 48

  /** One fixture row: the formatted date, the kick-off time and the opponent
      column (`"@ "` in front of it marks an away game). */
  datatype Row = Row(date: string, time: string, vs: string)

  /** The exceptions that end the script. */
  datatype RunError =
    | ItemNotUnique(team: string, matches: nat)  // `.item()` on several rows: ValueError
    | UnknownOpponent(abbreviation: string)      // `OPPONENTS[versus]`: KeyError
    | FieldNotFound(id: string)                  // `(t,) = ROOT.findall(...)` finds no element

  /** `team.lstrip("U")`: the age part of a team name. */
  function TeamAge(team: string): (age: string)
    ensures age == [] || age[0] != 'U'
    ensures |age| <= |team|
  {
    LStripSpec(team, {'U'});
    LStrip(team, {'U'})
  }

  /** The id of a template element: field name followed by the age. */
  function FieldId(field: string, age: string): (id: string)
    ensures |id| == |field| + |age|
  {
    field + age
  }

  /** The field name and the age can be read back from an id. */
  lemma FieldIdParts(field: string, age: string)
    ensures FieldId(field, age)[..|field|] == field && FieldId(field, age)[|field|..] == age
  {
  }

  const CALENDAR_WEEK_ID: string := FieldId("CALENDAR_WEEK", "")

  /** The three per-team ids. */
  function TeamFieldIds(team: string): set<string> {
    var age := TeamAge(team);
    {FieldId("DATE", age), FieldId("TEAM", age), FieldId("TIME", age)}
  }

  /** A name with a single leading "U" loses exactly that letter. */
  lemma SingleU(team: string)
    requires |team| >= 2 && team[0] == 'U' && team[1] != 'U'
    ensures TeamAge(team) == team[1..]
  {
    assert LStrip(team, {'U'}) == LStrip(team[1..], {'U'});
    assert team[1..][0] == team[1];
  }

  /** The ages of the youth teams: "U17" gives "17", and so on. */
  lemma YouthTeamAges()
    ensures TeamAge("U17") == "17" && TeamAge("U15") == "15" && TeamAge("U13") == "13"
    ensures TeamAge("U11") == "11" && TeamAge("U9") == "9"
  {
    SingleU("U17");
    SingleU("U15");
    SingleU("U13");
    SingleU("U11");
    SingleU("U9");
    assert "U17"[1..] == "17" && "U15"[1..] == "15" && "U13"[1..] == "13";
    assert "U11"[1..] == "11" && "U9"[1..] == "9";
  }

  /** "U17" owns the elements "DATE17", "TEAM17" and "TIME17". */
  lemma TeamFieldIdsU17()
    ensures FieldId("DATE", TeamAge("U17")) == "DATE17"
    ensures FieldId("TEAM", TeamAge("U17")) == "TEAM17"
    ensures FieldId("TIME", TeamAge("U17")) == "TIME17"
  {
  }

  /** No two youth teams share an age, hence no two share a field. */
  lemma YouthAgesDistinct()
    ensures DistinctAges(YOUTH_TEAMS)
  {
    YouthTeamAges();
    var ages := ["17", "15", "13", "11", "9"];
    forall i, j | 0 <= i < j < |YOUTH_TEAMS|
      ensures TeamAge(YOUTH_TEAMS[i]) != TeamAge(YOUTH_TEAMS[j])
    {
      assert TeamAge(YOUTH_TEAMS[i]) == ages[i] && TeamAge(YOUTH_TEAMS[j]) == ages[j];
      assert ages[i][|ages[i]| - 1] != ages[j][|ages[j]| - 1];
    }
  }

  predicate DistinctAges(teams: seq<string>) {
    forall i, j :: 0 <= i < j < |teams| ==> TeamAge(teams[i]) != TeamAge(teams[j])
  }

  /** Ids of different fields never coincide, and ids of one field differ for
      different ages. */
  lemma FieldIdsDistinct(a: string, b: string)
    ensures FieldId("DATE", a) != FieldId("TEAM", b)
    ensures FieldId("DATE", a) != FieldId("TIME", b)
    ensures FieldId("TEAM", a) != FieldId("TIME", b)
    ensures forall f :: FieldId(f, a) == FieldId(f, b) ==> a == b
  {
    FieldIdParts("DATE", a);
    FieldIdParts("TEAM", b);
    FieldIdParts("TIME", b);
    FieldIdParts("TEAM", a);
    assert FieldId("DATE", a)[0] == 'D' && FieldId("TEAM", b)[0] == 'T';
    assert FieldId("TIME", b)[1] == 'I' && FieldId("TEAM", a)[1] == 'E';
    forall f | FieldId(f, a) == FieldId(f, b) ensures a == b {
      FieldIdParts(f, a);
      FieldIdParts(f, b);
      assert a == FieldId(f, a)[|f|..];
      assert b == FieldId(f, b)[|f|..];
    }
  }

  /** The calendar-week element is no team's field. */
  lemma CalendarWeekIdNotTeamField(team: string)
    ensures CALENDAR_WEEK_ID !in TeamFieldIds(team)
  {
    var age := TeamAge(team);
    assert CALENDAR_WEEK_ID[0] == 'C';
    assert FieldId("DATE", age)[0] == 'D';
    assert FieldId("TEAM", age)[0] == 'T' && FieldId("TIME", age)[0] == 'T';
  }

  /** Separates the away marker from the opponent column: `"@ X"` is an away game
      against X, anything else a home game against itself. */
  function SplitVenue(raw: string): (p: (string, string))
    ensures p.1 == "A" || p.1 == "H"
    ensures p.1 == "A" <==> |raw| >= 2 && raw[..2] == "@ "
    ensures raw == if p.1 == "A" then "@ " + p.0 else p.0
  {
    if |raw| >= 2 && raw[..2] == "@ " then (raw[2..], "A") else (raw, "H")
  }

  /** `set_opponent`'s text: the opponent, then `" [where]"` when `where` is not empty. */
  function OpponentText(versus: string, where: string): (t: string)
    ensures where == "" ==> t == versus
    ensures where != "" ==> |t| == |versus| + |where| + 3
    ensures where != "" ==> t[..|versus|] == versus && t[|versus|..] == " [" + where + "]"
  {
    versus + (if where != "" then " [" + where + "]" else "")
  }

  /** `set_calendar_week`'s text. */
  function CalendarWeekText(week: int): (t: string)
    ensures |t| > 17 && t[..17] == "SPIELVORSCHAU KW " && t[17..] == IntToString(week)
  {
    "SPIELVORSCHAU KW " + IntToString(week)
  }

  /** The calendar-week line names the week it was written for. */
  lemma CalendarWeekTextInjective(w1: int, w2: int)
    requires CalendarWeekText(w1) == CalendarWeekText(w2)
    ensures w1 == w2
  {
    var prefix := "SPIELVORSCHAU KW ";
    assert CalendarWeekText(w1)[|prefix|..] == IntToString(w1);
    assert CalendarWeekText(w2)[|prefix|..] == IntToString(w2);
    IntToStringInjective(w1, w2);
  }

  /** The texts a team with a game gets. */
  datatype Fields = Fields(date: string, opponent: string, time: string)

  /** What the loop does for one team: blank its fields or fill them. */
  datatype TeamAction = Blank | Fill(fields: Fields)

  /** The loop body's decision for one team from its rows in the current week. */
  function Decide(team: string, rows: seq<Row>, opponents: map<string, string>)
    : (r: Result<TeamAction, RunError>)
    ensures r == Success(Blank) <==> rows == []
    ensures r.Failure? && r.error.ItemNotUnique? <==> |rows| > 1
    ensures |rows| > 1 ==> r == Failure(ItemNotUnique(team, |rows|))
    ensures r.Failure? && r.error.UnknownOpponent? <==>
      |rows| == 1 && team != "U9" && team != "U11" && SplitVenue(rows[0].vs).0 !in opponents
    ensures r.Failure? ==> !r.error.FieldNotFound?
    ensures r.Success? && r.value.Fill? ==>
      |rows| == 1 && r.value.fields.date == rows[0].date && r.value.fields.time == rows[0].time
  {
    if rows == [] then Success(Blank)
    else if |rows| > 1 then Failure(ItemNotUnique(team, |rows|))
    else
      var row := rows[0];
      var (versus, where) := SplitVenue(row.vs);
      if team == "U9" || team == "U11" then
        Success(Fill(Fields(row.date, OpponentText(versus, ""), row.time)))
      else if versus in opponents then
        Success(Fill(Fields(row.date, OpponentText(opponents[versus], where), row.time)))
      else
        Failure(UnknownOpponent(versus))
  }

  /** The opponent text of a team with one game: for U9 and U11 the column without
      its away marker; for the others the full club name of the abbreviation,
      tagged " [A]" for an away game and " [H]" for a home game. */
  lemma OpponentDisplay(team: string, row: Row, opponents: map<string, string>)
    ensures var r := Decide(team, [row], opponents);
      var away := |row.vs| >= 2 && row.vs[..2] == "@ ";
      var abbreviation := if away then row.vs[2..] else row.vs;
      && (team == "U9" || team == "U11" ==>
            r == Success(Fill(Fields(row.date, abbreviation, row.time))))
      && (team != "U9" && team != "U11" && abbreviation in opponents ==>
            r == Success(Fill(Fields(row.date,
              opponents[abbreviation] + (if away then " [A]" else " [H]"), row.time))))
      && (team != "U9" && team != "U11" && abbreviation !in opponents ==>
            r == Failure(UnknownOpponent(abbreviation)))
  {
    var away := |row.vs| >= 2 && row.vs[..2] == "@ ";
    var p := SplitVenue(row.vs);
    assert p.1 == (if away then "A" else "H");
    assert p.0 == if away then row.vs[2..] else row.vs;
    assert OpponentText(p.0, "") == p.0;
    forall v: string ensures OpponentText(v, "A") == v + " [A]" && OpponentText(v, "H") == v + " [H]" {
      assert " [" + "A" + "]" == " [A]" && " [" + "H" + "]" == " [H]";
    }
  }

  /** The ids in a sequence of writes. */
  function Ids(writes: seq<(string, string)>): set<string> {
    set w | w in writes :: w.0
  }

  /** A sequence of field writers run one after another: the first id without an
      element raises, otherwise each write replaces one text. */
  function Write(texts: map<string, string>, writes: seq<(string, string)>)
    : (r: Result<map<string, string>, RunError>)
    ensures r.Success? <==> Ids(writes) <= texts.Keys
    ensures r.Failure? ==> exists k ::
      && 0 <= k < |writes| && r.error == FieldNotFound(writes[k].0) && writes[k].0 !in texts
      && forall j :: 0 <= j < k ==> writes[j].0 in texts
    ensures r.Success? ==> r.value.Keys == texts.Keys
    decreases |writes|
  {
    if writes == [] then Success(texts)
    else if writes[0].0 !in texts then Failure(FieldNotFound(writes[0].0))
    else
      var r := Write(texts[writes[0].0 := writes[0].1], writes[1..]);
      IdsCons(writes);
      assert r.Failure? ==> exists k ::
        && 1 <= k < |writes| && r.error == FieldNotFound(writes[k].0) && writes[k].0 !in texts
        && forall j :: 0 <= j < k ==> writes[j].0 in texts by {
        if r.Failure? {
          var k :| 0 <= k < |writes[1..]| && r.error == FieldNotFound(writes[1..][k].0)
            && writes[1..][k].0 !in texts[writes[0].0 := writes[0].1]
            && forall j :: 0 <= j < k ==> writes[1..][j].0 in texts[writes[0].0 := writes[0].1];
          MissingShift(texts, writes, k);
        }
      }
      r
  }

  /** The ids of a non-empty sequence of writes: the head's and the tail's. */
  lemma IdsCons(writes: seq<(string, string)>)
    requires writes != []
    ensures Ids(writes) == {writes[0].0} + Ids(writes[1..])
  {
    assert writes == [writes[0]] + writes[1..];
  }

  /** A missing id at position `k` of the tail, after the head's id is present, is
      a missing id at position `k + 1` with every earlier id present. */
  lemma MissingShift(texts: map<string, string>, writes: seq<(string, string)>, k: nat)
    requires writes != [] && writes[0].0 in texts && k < |writes| - 1
    requires writes[1..][k].0 !in texts[writes[0].0 := writes[0].1]
    requires forall j :: 0 <= j < k ==> writes[1..][j].0 in texts[writes[0].0 := writes[0].1]
    ensures writes[k + 1].0 !in texts
    ensures forall j :: 0 <= j < k + 1 ==> writes[j].0 in texts
  {
    assert forall j :: 1 <= j < k + 1 ==> writes[j] == writes[1..][j - 1];
  }

  /** After a successful run of writers, a text nobody writes is unchanged and the
      last write to an id wins. */
  lemma {:induction false} WriteEffect(texts: map<string, string>, writes: seq<(string, string)>)
    requires Write(texts, writes).Success?
    ensures forall id :: id in texts && id !in Ids(writes) ==> Write(texts, writes).value[id] == texts[id]
    ensures forall k :: 0 <= k < |writes| && writes[k].0 !in Ids(writes[k + 1..]) ==>
      Write(texts, writes).value[writes[k].0] == writes[k].1
    decreases |writes|
  {
    if writes != [] {
      var t1 := texts[writes[0].0 := writes[0].1];
      WriteEffect(t1, writes[1..]);
      var r := Write(t1, writes[1..]);
      assert Write(texts, writes) == r;
      assert Ids(writes) == {writes[0].0} + Ids(writes[1..]);
      forall k | 1 <= k < |writes| && writes[k].0 !in Ids(writes[k + 1..])
        ensures r.value[writes[k].0] == writes[k].1
      {
        assert writes[1..][k - 1] == writes[k];
        assert writes[1..][k - 1 + 1..] == writes[k + 1..];
      }
      if writes[0].0 !in Ids(writes[1..]) {
        assert r.value[writes[0].0] == t1[writes[0].0];
      }
    }
  }

  /** The writer calls the loop makes for one team, in order: `empty_date`,
      `empty_opponent`, `empty_time`; or `set_calendar_week`, `set_date`,
      `set_opponent`, `set_time`. */
  function TeamWrites(team: string, action: TeamAction, week: int): seq<(string, string)> {
    var age := TeamAge(team);
    match action
    case Blank =>
      [(FieldId("DATE", age), ""), (FieldId("TEAM", age), ""), (FieldId("TIME", age), "")]
    case Fill(f) =>
      [(CALENDAR_WEEK_ID, CalendarWeekText(week)), (FieldId("DATE", age), f.date),
       (FieldId("TEAM", age), f.opponent), (FieldId("TIME", age), f.time)]
  }

  /** One iteration of the loop. */
  function TeamUpdate(texts: map<string, string>, team: string, rows: seq<Row>,
                      opponents: map<string, string>, week: int)
    : (r: Result<map<string, string>, RunError>)
    ensures r.Success? ==> r.value.Keys == texts.Keys
    ensures Decide(team, rows, opponents).Failure? ==> r == Failure(Decide(team, rows, opponents).error)
    ensures Decide(team, rows, opponents).Success? && r.Failure? ==>
      r.error.FieldNotFound? && r.error.id !in texts
  {
    match Decide(team, rows, opponents)
    case Failure(e) => Failure(e)
    case Success(action) => Write(texts, TeamWrites(team, action, week))
  }

  /** The whole loop over `teams`, `rowsByTeam[k]` being the week's rows of `teams[k]`;
      the first exception ends it. */
  function Script(texts: map<string, string>, teams: seq<string>, rowsByTeam: seq<seq<Row>>,
                  opponents: map<string, string>, week: int)
    : (r: Result<map<string, string>, RunError>)
    requires |rowsByTeam| == |teams|
    ensures r.Success? ==> r.value.Keys == texts.Keys
    ensures r.Failure? && r.error.FieldNotFound? ==> r.error.id !in texts
    decreases |teams|
  {
    if teams == [] then Success(texts)
    else
      match TeamUpdate(texts, teams[0], rowsByTeam[0], opponents, week)
      case Failure(e) => Failure(e)
      case Success(next) => Script(next, teams[1..], rowsByTeam[1..], opponents, week)
  }

  /** Three writes in a row: the first missing id raises, otherwise all three
      texts are replaced in order. */
  lemma WriteThree(texts: map<string, string>, a: string, x: string, b: string, y: string,
                   c: string, z: string)
    ensures Write(texts, [(a, x), (b, y), (c, z)]) ==
      if a !in texts then Failure(FieldNotFound(a))
      else if b !in texts then Failure(FieldNotFound(b))
      else if c !in texts then Failure(FieldNotFound(c))
      else Success(texts[a := x][b := y][c := z])
  {
    var writes := [(a, x), (b, y), (c, z)];
    if a in texts {
      var m1 := texts[a := x];
      assert writes[1..] == [(b, y), (c, z)];
      assert Write(texts, writes) == Write(m1, writes[1..]);
      if b in m1 {
        var m2 := m1[b := y];
        assert [(b, y), (c, z)][1..] == [(c, z)];
        assert Write(m1, writes[1..]) == Write(m2, [(c, z)]);
        if c in m2 {
          assert Write(m2, [(c, z)]) == Write(m2[c := z], []);
        }
      }
    }
  }

  /** Four writes in a row, likewise. */
  lemma WriteFour(texts: map<string, string>, a: string, w: string, b: string, x: string,
                  c: string, y: string, d: string, z: string)
    ensures Write(texts, [(a, w), (b, x), (c, y), (d, z)]) ==
      if a !in texts then Failure(FieldNotFound(a))
      else if b !in texts then Failure(FieldNotFound(b))
      else if c !in texts then Failure(FieldNotFound(c))
      else if d !in texts then Failure(FieldNotFound(d))
      else Success(texts[a := w][b := x][c := y][d := z])
  {
    var writes := [(a, w), (b, x), (c, y), (d, z)];
    if a in texts {
      var m1 := texts[a := w];
      assert writes[1..] == [(b, x), (c, y), (d, z)];
      assert Write(texts, writes) == Write(m1, writes[1..]);
      WriteThree(m1, b, x, c, y, d, z);
    }
  }

  /** A team without a game: its three fields are blanked in the order date,
      opponent, time, the first missing one raising. */
  lemma TeamUpdateBlank(texts: map<string, string>, team: string, opponents: map<string, string>, week: int)
    ensures var age := TeamAge(team);
      var d, t, ti := FieldId("DATE", age), FieldId("TEAM", age), FieldId("TIME", age);
      TeamUpdate(texts, team, [], opponents, week) ==
        if d !in texts then Failure(FieldNotFound(d))
        else if t !in texts then Failure(FieldNotFound(t))
        else if ti !in texts then Failure(FieldNotFound(ti))
        else Success(texts[d := ""][t := ""][ti := ""])
  {
    var age := TeamAge(team);
    var d, t, ti := FieldId("DATE", age), FieldId("TEAM", age), FieldId("TIME", age);
    assert TeamWrites(team, Blank, week) == [(d, ""), (t, ""), (ti, "")];
    WriteThree(texts, d, "", t, "", ti, "");
  }

  /** A team with a game: calendar week, date, opponent and time are written in
      that order, the first missing one raising. */
  lemma TeamUpdateFill(texts: map<string, string>, team: string, rows: seq<Row>,
                       opponents: map<string, string>, week: int, f: Fields)
    requires Decide(team, rows, opponents) == Success(Fill(f))
    ensures var age := TeamAge(team);
      var c, d, t, ti := CALENDAR_WEEK_ID, FieldId("DATE", age), FieldId("TEAM", age), FieldId("TIME", age);
      TeamUpdate(texts, team, rows, opponents, week) ==
        if c !in texts then Failure(FieldNotFound(c))
        else if d !in texts then Failure(FieldNotFound(d))
        else if t !in texts then Failure(FieldNotFound(t))
        else if ti !in texts then Failure(FieldNotFound(ti))
        else Success(texts[c := CalendarWeekText(week)][d := f.date][t := f.opponent][ti := f.time])
  {
    var age := TeamAge(team);
    var c, d, t, ti := CALENDAR_WEEK_ID, FieldId("DATE", age), FieldId("TEAM", age), FieldId("TIME", age);
    assert TeamWrites(team, Fill(f), week) ==
      [(c, CalendarWeekText(week)), (d, f.date), (t, f.opponent), (ti, f.time)];
    WriteFour(texts, c, CalendarWeekText(week), d, f.date, t, f.opponent, ti, f.time);
  }

  /** Three updates of a map at distinct keys that are already present. */
  lemma UpdateThree(m: map<string, string>, a: string, x: string, b: string, y: string,
                    c: string, z: string)
    requires a in m && b in m && c in m && a != b && a != c && b != c
    ensures var m' := m[a := x][b := y][c := z];
      && m'.Keys == m.Keys && m'[a] == x && m'[b] == y && m'[c] == z
      && forall id :: id in m && id != a && id != b && id != c ==> m'[id] == m[id]
  {
  }

  /** One iteration writes exactly the team's three fields (blank without a game)
      and, when it has a game, the calendar week; every other text and the set of
      ids stay as they were. */
  lemma TeamUpdateEffect(texts: map<string, string>, team: string, rows: seq<Row>,
                         opponents: map<string, string>, week: int)
    requires TeamUpdate(texts, team, rows, opponents, week).Success?
    ensures var next := TeamUpdate(texts, team, rows, opponents, week).value;
      var age := TeamAge(team);
      && next.Keys == texts.Keys
      && TeamFieldIds(team) <= texts.Keys
      && (forall id :: id in texts && id !in TeamFieldIds(team) && id != CALENDAR_WEEK_ID ==>
            next[id] == texts[id])
      && (rows == [] ==>
            && next[FieldId("DATE", age)] == "" && next[FieldId("TEAM", age)] == ""
            && next[FieldId("TIME", age)] == ""
            && (CALENDAR_WEEK_ID in texts ==> next[CALENDAR_WEEK_ID] == texts[CALENDAR_WEEK_ID]))
      && (rows != [] ==>
            var f := Decide(team, rows, opponents).value.fields;
            && next[FieldId("DATE", age)] == f.date && next[FieldId("TEAM", age)] == f.opponent
            && next[FieldId("TIME", age)] == f.time
            && next[CALENDAR_WEEK_ID] == CalendarWeekText(week))
  {
    if rows == [] {
      TeamUpdateEffectBlank(texts, team, opponents, week);
      CalendarWeekIdNotTeamField(team);
    } else {
      TeamUpdateEffectFill(texts, team, rows, opponents, week);
    }
  }

  /** A team without a game: its three fields are emptied, nothing else changes. */
  lemma TeamUpdateEffectBlank(texts: map<string, string>, team: string,
                              opponents: map<string, string>, week: int)
    requires TeamUpdate(texts, team, [], opponents, week).Success?
    ensures var next := TeamUpdate(texts, team, [], opponents, week).value;
      var age := TeamAge(team);
      && next.Keys == texts.Keys
      && TeamFieldIds(team) <= texts.Keys
      && (forall id :: id in texts && id !in TeamFieldIds(team) ==> next[id] == texts[id])
      && next[FieldId("DATE", age)] == "" && next[FieldId("TEAM", age)] == ""
      && next[FieldId("TIME", age)] == ""
  {
    var age := TeamAge(team);
    var d, t, ti := FieldId("DATE", age), FieldId("TEAM", age), FieldId("TIME", age);
    assert TeamFieldIds(team) == {d, t, ti};
    FieldIdsDistinct(age, age);
    TeamUpdateBlank(texts, team, opponents, week);
    assert d in texts && t in texts && ti in texts;
    assert TeamUpdate(texts, team, [], opponents, week).value == texts[d := ""][t := ""][ti := ""];
    UpdateThree(texts, d, "", t, "", ti, "");
  }

  /** A team with one game: the calendar week and its three fields are written,
      nothing else changes. */
  lemma TeamUpdateEffectFill(texts: map<string, string>, team: string, rows: seq<Row>,
                             opponents: map<string, string>, week: int)
    requires rows != [] && TeamUpdate(texts, team, rows, opponents, week).Success?
    ensures var next := TeamUpdate(texts, team, rows, opponents, week).value;
      var age := TeamAge(team);
      var f := Decide(team, rows, opponents).value.fields;
      && next.Keys == texts.Keys
      && TeamFieldIds(team) <= texts.Keys
      && (forall id :: id in texts && id !in TeamFieldIds(team) && id != CALENDAR_WEEK_ID ==>
            next[id] == texts[id])
      && next[FieldId("DATE", age)] == f.date && next[FieldId("TEAM", age)] == f.opponent
      && next[FieldId("TIME", age)] == f.time
      && next[CALENDAR_WEEK_ID] == CalendarWeekText(week)
  {
    var age := TeamAge(team);
    var c, d, t, ti := CALENDAR_WEEK_ID, FieldId("DATE", age), FieldId("TEAM", age), FieldId("TIME", age);
    assert TeamFieldIds(team) == {d, t, ti};
    FieldIdsDistinct(age, age);
    CalendarWeekIdNotTeamField(team);
    assert c != d && c != t && c != ti;
    var f := Decide(team, rows, opponents).value.fields;
    TeamUpdateFill(texts, team, rows, opponents, week, f);
    assert c in texts && d in texts && t in texts && ti in texts;
    var m1 := texts[c := CalendarWeekText(week)];
    assert TeamUpdate(texts, team, rows, opponents, week).value == m1[d := f.date][t := f.opponent][ti := f.time];
    UpdateThree(m1, d, f.date, t, f.opponent, ti, f.time);
  }

  /** One iteration keeps every text outside the team's fields and the calendar week. */
  lemma TeamUpdateKeeps(texts: map<string, string>, team: string, rows: seq<Row>,
                        opponents: map<string, string>, week: int, id: string)
    requires TeamUpdate(texts, team, rows, opponents, week).Success?
    requires id in texts && id !in TeamFieldIds(team) && id != CALENDAR_WEEK_ID
    ensures id in TeamUpdate(texts, team, rows, opponents, week).value
    ensures TeamUpdate(texts, team, rows, opponents, week).value[id] == texts[id]
  {
    TeamUpdateEffect(texts, team, rows, opponents, week);
  }

  /** A text that is no field of any of the teams, and not the calendar week,
      survives the loop. */
  lemma {:induction false} ScriptKeepsText(texts: map<string, string>, teams: seq<string>,
                                           rowsByTeam: seq<seq<Row>>, opponents: map<string, string>,
                                           week: int, id: string)
    requires |rowsByTeam| == |teams| && Script(texts, teams, rowsByTeam, opponents, week).Success?
    requires id in texts && id != CALENDAR_WEEK_ID
    requires forall k :: 0 <= k < |teams| ==> id !in TeamFieldIds(teams[k])
    ensures id in Script(texts, teams, rowsByTeam, opponents, week).value
    ensures Script(texts, teams, rowsByTeam, opponents, week).value[id] == texts[id]
    decreases |teams|
  {
    if teams != [] {
      var next := TeamUpdate(texts, teams[0], rowsByTeam[0], opponents, week).value;
      var rest, restRows := teams[1..], rowsByTeam[1..];
      assert Script(texts, teams, rowsByTeam, opponents, week) == Script(next, rest, restRows, opponents, week);
      assert id !in TeamFieldIds(teams[0]);
      TeamUpdateKeeps(texts, teams[0], rowsByTeam[0], opponents, week, id);
      assert forall k :: 0 <= k < |rest| ==> rest[k] == teams[k + 1];
      ScriptKeepsText(next, rest, restRows, opponents, week, id);
    }
  }

  /** Without a game in the week the calendar-week line keeps its text. */
  lemma {:induction false} ScriptKeepsWeek(texts: map<string, string>, teams: seq<string>,
                                           rowsByTeam: seq<seq<Row>>, opponents: map<string, string>,
                                           week: int)
    requires |rowsByTeam| == |teams| && Script(texts, teams, rowsByTeam, opponents, week).Success?
    requires CALENDAR_WEEK_ID in texts
    requires forall k :: 0 <= k < |rowsByTeam| ==> rowsByTeam[k] == []
    ensures CALENDAR_WEEK_ID in Script(texts, teams, rowsByTeam, opponents, week).value
    ensures Script(texts, teams, rowsByTeam, opponents, week).value[CALENDAR_WEEK_ID]
      == texts[CALENDAR_WEEK_ID]
    decreases |teams|
  {
    if teams != [] {
      var next := TeamUpdate(texts, teams[0], rowsByTeam[0], opponents, week).value;
      var rest, restRows := teams[1..], rowsByTeam[1..];
      assert Script(texts, teams, rowsByTeam, opponents, week) == Script(next, rest, restRows, opponents, week);
      assert rowsByTeam[0] == [];
      TeamUpdateEffect(texts, teams[0], rowsByTeam[0], opponents, week);
      assert forall k :: 0 <= k < |restRows| ==> restRows[k] == rowsByTeam[k + 1];
      ScriptKeepsWeek(next, rest, restRows, opponents, week);
    }
  }

  /** The loop neither adds nor removes ids, and leaves alone every text that is
      not a field of one of its teams, except the calendar week, which changes
      only when some team has a game. */
  lemma ScriptFrame(texts: map<string, string>, teams: seq<string>,
                    rowsByTeam: seq<seq<Row>>, opponents: map<string, string>, week: int)
    requires |rowsByTeam| == |teams| && Script(texts, teams, rowsByTeam, opponents, week).Success?
    ensures var final := Script(texts, teams, rowsByTeam, opponents, week).value;
      && final.Keys == texts.Keys
      && (forall id ::
            (&& id in texts && id != CALENDAR_WEEK_ID
             && forall k :: 0 <= k < |teams| ==> id !in TeamFieldIds(teams[k]))
            ==> final[id] == texts[id])
      && ((forall k :: 0 <= k < |teams| ==> rowsByTeam[k] == []) && CALENDAR_WEEK_ID in texts ==>
            final[CALENDAR_WEEK_ID] == texts[CALENDAR_WEEK_ID])
  {
    forall id | && id in texts && id != CALENDAR_WEEK_ID
                && forall k :: 0 <= k < |teams| ==> id !in TeamFieldIds(teams[k])
      ensures Script(texts, teams, rowsByTeam, opponents, week).value[id] == texts[id]
    {
      ScriptKeepsText(texts, teams, rowsByTeam, opponents, week, id);
    }
    if (forall k :: 0 <= k < |teams| ==> rowsByTeam[k] == []) && CALENDAR_WEEK_ID in texts {
      ScriptKeepsWeek(texts, teams, rowsByTeam, opponents, week);
    }
  }

  /** What a run without exception leaves in one team's fields: its lookup
      succeeded, and its fields hold what its own rows decide (blank, or its date,
      opponent text and time, with the calendar week set). */
  predicate FieldsFilled(final: map<string, string>, team: string, rows: seq<Row>,
                         opponents: map<string, string>, week: int)
  {
    var age := TeamAge(team);
    && Decide(team, rows, opponents).Success?
    && FieldId("DATE", age) in final && FieldId("TEAM", age) in final && FieldId("TIME", age) in final
    && (rows == [] ==>
          final[FieldId("DATE", age)] == "" && final[FieldId("TEAM", age)] == ""
          && final[FieldId("TIME", age)] == "")
    && (rows != [] ==>
          var f := Decide(team, rows, opponents).value.fields;
          && final[FieldId("DATE", age)] == f.date && final[FieldId("TEAM", age)] == f.opponent
          && final[FieldId("TIME", age)] == f.time
          && CALENDAR_WEEK_ID in final && final[CALENDAR_WEEK_ID] == CalendarWeekText(week))
  }

  /** A list of teams with distinct ages: so has its tail, and the head's age is
      nobody else's. */
  lemma DistinctAgesTail(teams: seq<string>)
    requires teams != [] && DistinctAges(teams)
    ensures DistinctAges(teams[1..])
    ensures forall k :: 0 <= k < |teams[1..]| ==> TeamAge(teams[0]) != TeamAge(teams[1..][k])
  {
    var rest := teams[1..];
    forall a, b | 0 <= a < b < |rest| ensures TeamAge(rest[a]) != TeamAge(rest[b]) {
      assert rest[a] == teams[a + 1] && rest[b] == teams[b + 1];
    }
    forall k | 0 <= k < |rest| ensures TeamAge(teams[0]) != TeamAge(rest[k]) {
      assert rest[k] == teams[k + 1];
    }
  }

  /** The first team's fields: no later team touches them, and the calendar week
      it sets keeps its text. */
  lemma ScriptFieldsHead(texts: map<string, string>, teams: seq<string>,
                         rowsByTeam: seq<seq<Row>>, opponents: map<string, string>, week: int)
    requires |rowsByTeam| == |teams| && teams != []
    requires forall k :: 0 <= k < |teams[1..]| ==> TeamAge(teams[0]) != TeamAge(teams[1..][k])
    requires Script(texts, teams, rowsByTeam, opponents, week).Success?
    ensures FieldsFilled(Script(texts, teams, rowsByTeam, opponents, week).value,
                         teams[0], rowsByTeam[0], opponents, week)
  {
    var next := TeamUpdate(texts, teams[0], rowsByTeam[0], opponents, week).value;
    var rest, restRows := teams[1..], rowsByTeam[1..];
    assert Script(texts, teams, rowsByTeam, opponents, week) == Script(next, rest, restRows, opponents, week);
    TeamUpdateEffect(texts, teams[0], rowsByTeam[0], opponents, week);
    ScriptFrame(next, rest, restRows, opponents, week);
    forall k | 0 <= k < |rest| ensures TeamFieldIds(teams[0]) !! TeamFieldIds(rest[k]) {
      TeamFieldIdsDisjoint(teams[0], rest[k]);
    }
    CalendarWeekIdNotTeamField(teams[0]);
    if rowsByTeam[0] != [] {
      ScriptCalendarWeek(next, rest, restRows, opponents, week);
    }
  }

  /** After a run without exception, the fields of each team hold what that team's
      own rows decide (blank, or its date, opponent text and time), whatever the
      other teams do; and the calendar week is set once any team has a game. */
  lemma {:induction false} ScriptFields(texts: map<string, string>, teams: seq<string>,
                                        rowsByTeam: seq<seq<Row>>, opponents: map<string, string>,
                                        week: int, j: nat)
    requires |rowsByTeam| == |teams| && DistinctAges(teams) && j < |teams|
    requires Script(texts, teams, rowsByTeam, opponents, week).Success?
    ensures FieldsFilled(Script(texts, teams, rowsByTeam, opponents, week).value,
                         teams[j], rowsByTeam[j], opponents, week)
    decreases |teams|
  {
    DistinctAgesTail(teams);
    if j > 0 {
      var next := TeamUpdate(texts, teams[0], rowsByTeam[0], opponents, week).value;
      var rest, restRows := teams[1..], rowsByTeam[1..];
      assert Script(texts, teams, rowsByTeam, opponents, week) == Script(next, rest, restRows, opponents, week);
      assert teams[j] == rest[j - 1] && rowsByTeam[j] == restRows[j - 1];
      ScriptFields(next, rest, restRows, opponents, week, j - 1);
    } else {
      ScriptFieldsHead(texts, teams, rowsByTeam, opponents, week);
    }
  }

  /** Teams of different ages own disjoint fields. */
  lemma TeamFieldIdsDisjoint(a: string, b: string)
    requires TeamAge(a) != TeamAge(b)
    ensures TeamFieldIds(a) !! TeamFieldIds(b)
  {
    var x, y := TeamAge(a), TeamAge(b);
    FieldIdsDistinct(x, y);
    FieldIdsDistinct(y, x);
    assert FieldId("DATE", x) != FieldId("DATE", y);
    assert FieldId("TEAM", x) != FieldId("TEAM", y);
    assert FieldId("TIME", x) != FieldId("TIME", y);
  }

  /** Once set by a team with a game, the calendar week keeps its text. */
  lemma {:induction false} ScriptCalendarWeek(texts: map<string, string>, teams: seq<string>,
                                              rowsByTeam: seq<seq<Row>>, opponents: map<string, string>, week: int)
    requires |rowsByTeam| == |teams| && Script(texts, teams, rowsByTeam, opponents, week).Success?
    requires CALENDAR_WEEK_ID in texts && texts[CALENDAR_WEEK_ID] == CalendarWeekText(week)
    ensures CALENDAR_WEEK_ID in Script(texts, teams, rowsByTeam, opponents, week).value
    ensures Script(texts, teams, rowsByTeam, opponents, week).value[CALENDAR_WEEK_ID] == CalendarWeekText(week)
    decreases |teams|
  {
    if teams != [] {
      var next := TeamUpdate(texts, teams[0], rowsByTeam[0], opponents, week).value;
      TeamUpdateEffect(texts, teams[0], rowsByTeam[0], opponents, week);
      CalendarWeekIdNotTeamField(teams[0]);
      ScriptCalendarWeek(next, teams[1..], rowsByTeam[1..], opponents, week);
    }
  }

  /** The parsed template: the text of the single `tspan` of each `text` element,
      keyed by the element's id. The writers below change it in place. */
  class SvgTree {
    var texts: map<string, string>

    constructor (texts: map<string, string>)
      ensures this.texts == texts
    {
      this.texts := texts;
    }

    /** Finds the one element with this id and replaces its text. */
    method SetText(id: string, text: string) returns (res: Outcome<RunError>)
      modifies this
      ensures res == if id in old(texts) then Pass else Fail(FieldNotFound(id))
      ensures texts == if id in old(texts) then old(texts)[id := text] else old(texts)
    {
      if id !in texts {
        return Fail(FieldNotFound(id));
      }
      texts := texts[id := text];
      return Pass;
    }

    method SetOpponent(versus: string, where: string, age: string) returns (res: Outcome<RunError>)
      modifies this
      ensures var id := FieldId("TEAM", age);
        && res == (if id in old(texts) then Pass else Fail(FieldNotFound(id)))
        && texts == if id in old(texts) then old(texts)[id := OpponentText(versus, where)] else old(texts)
    {
      res := SetText(FieldId("TEAM", age), OpponentText(versus, where));
    }

    method SetDate(date: string, age: string) returns (res: Outcome<RunError>)
      modifies this
      ensures var id := FieldId("DATE", age);
        && res == (if id in old(texts) then Pass else Fail(FieldNotFound(id)))
        && texts == if id in old(texts) then old(texts)[id := date] else old(texts)
    {
      res := SetText(FieldId("DATE", age), date);
    }

    method SetTime(time: string, age: string) returns (res: Outcome<RunError>)
      modifies this
      ensures var id := FieldId("TIME", age);
        && res == (if id in old(texts) then Pass else Fail(FieldNotFound(id)))
        && texts == if id in old(texts) then old(texts)[id := time] else old(texts)
    {
      res := SetText(FieldId("TIME", age), time);
    }

    method SetCalendarWeek(week: int) returns (res: Outcome<RunError>)
      modifies this
      ensures var id := CALENDAR_WEEK_ID;
        && res == (if id in old(texts) then Pass else Fail(FieldNotFound(id)))
        && texts == if id in old(texts) then old(texts)[id := CalendarWeekText(week)] else old(texts)
    {
      res := SetText(CALENDAR_WEEK_ID, CalendarWeekText(week));
    }

    method EmptyOpponent(age: string) returns (res: Outcome<RunError>)
      modifies this
      ensures var id := FieldId("TEAM", age);
        && res == (if id in old(texts) then Pass else Fail(FieldNotFound(id)))
        && texts == if id in old(texts) then old(texts)[id := ""] else old(texts)
    {
      res := SetText(FieldId("TEAM", age), "");
    }

    method EmptyDate(age: string) returns (res: Outcome<RunError>)
      modifies this
      ensures var id := FieldId("DATE", age);
        && res == (if id in old(texts) then Pass else Fail(FieldNotFound(id)))
        && texts == if id in old(texts) then old(texts)[id := ""] else old(texts)
    {
      res := SetText(FieldId("DATE", age), "");
    }

    method EmptyTime(age: string) returns (res: Outcome<RunError>)
      modifies this
      ensures var id := FieldId("TIME", age);
        && res == (if id in old(texts) then Pass else Fail(FieldNotFound(id)))
        && texts == if id in old(texts) then old(texts)[id := ""] else old(texts)
    {
      res := SetText(FieldId("TIME", age), "");
    }

    /** The loop body for a team without a game in the week. */
    method BlankTeam(team: string, opponents: map<string, string>, week: int)
      returns (res: Outcome<RunError>)
      modifies this
      ensures var r := TeamUpdate(old(texts), team, [], opponents, week);
        && (res.Pass? <==> r.Success?)
        && (res.Fail? ==> res.error == r.error)
        && (res.Pass? ==> texts == r.value)
    {
      var teamAge := TeamAge(team);
      TeamUpdateBlank(texts, team, opponents, week);
      res := EmptyDate(teamAge);
      if res.Fail? { return; }
      res := EmptyOpponent(teamAge);
      if res.Fail? { return; }
      res := EmptyTime(teamAge);
    }

    /** The writer calls for a team whose one game has been looked up. */
    method WriteTeam(team: string, rows: seq<Row>, opponents: map<string, string>, week: int,
                     versus: string, where: string)
      returns (res: Outcome<RunError>)
      requires |rows| == 1
      requires Decide(team, rows, opponents)
        == Success(Fill(Fields(rows[0].date, OpponentText(versus, where), rows[0].time)))
      modifies this
      ensures var r := TeamUpdate(old(texts), team, rows, opponents, week);
        && (res.Pass? <==> r.Success?)
        && (res.Fail? ==> res.error == r.error)
        && (res.Pass? ==> texts == r.value)
    {
      var teamAge := TeamAge(team);
      TeamUpdateFill(texts, team, rows, opponents, week,
                     Fields(rows[0].date, OpponentText(versus, where), rows[0].time));
      res := SetCalendarWeek(week);
      if res.Fail? { return; }
      res := SetDate(rows[0].date, teamAge);
      if res.Fail? { return; }
      res := SetOpponent(versus, where, teamAge);
      if res.Fail? { return; }
      res := SetTime(rows[0].time, teamAge);
    }

    /** The body of the loop for one team. */
    method FillTeam(team: string, rows: seq<Row>, opponents: map<string, string>, week: int)
      returns (res: Outcome<RunError>)
      modifies this
      ensures var r := TeamUpdate(old(texts), team, rows, opponents, week);
        && (res.Pass? <==> r.Success?)
        && (res.Fail? ==> res.error == r.error)
        && (res.Pass? ==> texts == r.value)
    {
      if rows == [] {
        res := BlankTeam(team, opponents, week);
        return;
      }
      if |rows| != 1 {
        return Fail(ItemNotUnique(team, |rows|));
      }
      var versus := rows[0].vs;

      var where: string;
      if |versus| >= 2 && versus[..2] == "@ " {
        where := "A";
        versus := versus[2..];
      } else {
        where := "H";
      }
      assert (versus, where) == SplitVenue(rows[0].vs);

      if team == "U9" || team == "U11" {
        where := "";
      } else {
        if versus !in opponents {
          return Fail(UnknownOpponent(versus));
        }
        versus := opponents[versus];
      }
      res := WriteTeam(team, rows, opponents, week, versus, where);
    }

    /** The module-level loop over `YOUTH_TEAMS` with the week fixed at 48 and the
        opponent table of `Teams`; `rowsByTeam[k]` are the rows of
        `YOUTH_TEAMS[k]` that fall into that week. */
    method RunScript(rowsByTeam: seq<seq<Row>>) returns (res: Outcome<RunError>)
      requires |rowsByTeam| == |YOUTH_TEAMS|
      modifies this
      ensures var r := Script(old(texts), YOUTH_TEAMS, rowsByTeam, Teams.OPPONENTS, CURRENT_WEEK);
        && (res.Pass? <==> r.Success?)
        && (res.Fail? ==> res.error == r.error)
        && (res.Pass? ==> texts == r.value)
    {
      for k := 0 to |YOUTH_TEAMS|
        invariant Script(old(texts), YOUTH_TEAMS, rowsByTeam, Teams.OPPONENTS, CURRENT_WEEK)
          == Script(texts, YOUTH_TEAMS[k..], rowsByTeam[k..], Teams.OPPONENTS, CURRENT_WEEK)
      {
        ghost var before := texts;
        assert YOUTH_TEAMS[k..][1..] == YOUTH_TEAMS[k + 1..];
        assert rowsByTeam[k..][1..] == rowsByTeam[k + 1..];
        res := FillTeam(YOUTH_TEAMS[k], rowsByTeam[k], Teams.OPPONENTS, CURRENT_WEEK);
        if res.Fail? {
          return;
        }
      }
      res := Pass;
    }
  }
}
