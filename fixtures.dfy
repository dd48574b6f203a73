/**
 * soccer_api.py: the finished LaLiga fixtures of a season, each nested
 * JSON fixture flattened into a record of nine fields. The HTTP request is
 * a parameter that returns the decoded body.
 */
module Fixtures {
  import opened Wrappers
  import opened Frames

  datatype Status = Status(short: Cell)
  datatype FixtureInfo = FixtureInfo(id: Cell, date: Cell, status: Status)
  datatype League = League(name: Cell, round: Cell)
  datatype Team = Team(name: Cell)
  datatype Teams = Teams(home: Team, away: Team)
  datatype Goals = Goals(home: Cell, away: Cell)

  /** One element of `response`: the nested objects the record reads from. */
  datatype FixtureJson = FixtureJson(fixture: FixtureInfo, league: League, teams: Teams, goals: Goals)

  /** The decoded body: the `errors` list (empty when absent) and the `response` field. */
  datatype FixturesPayload = FixturesPayload(errors: seq<string>, response: JsonField<seq<FixtureJson>>)

  /** The request for one season (league 140, status FT). */
  type FixturesFetch = int -> FixturesPayload

  /** `limit=380`: one full season of twenty teams. */
  const DefaultLimit: int := 380

  /** The nine field names of a record. */
  const RecordFields: set<string> :=
    {"fixture_id", "date", "status", "league", "round", "home_team", "away_team", "home_goals", "away_goals"}

  /** The record of one fixture. */
  function ToRecord(f: FixtureJson): (r: map<string, Cell>)
    ensures r.Keys == RecordFields
  {
    map["fixture_id" := f.fixture.id, "date" := f.fixture.date, "status" := f.fixture.status.short,
        "league" := f.league.name, "round" := f.league.round,
        "home_team" := f.teams.home.name, "away_team" := f.teams.away.name,
        "home_goals" := f.goals.home, "away_goals" := f.goals.away]
  }

  /** The record holds every nested field it is built from, so the fixture can be read back from it. */
  function FromRecord(r: map<string, Cell>): (f: FixtureJson)
    requires RecordFields <= r.Keys
  {
    FixtureJson(FixtureInfo(r["fixture_id"], r["date"], Status(r["status"])),
                League(r["league"], r["round"]),
                Teams(Team(r["home_team"]), Team(r["away_team"])),
                Goals(r["home_goals"], r["away_goals"]))
  }

  /** Reading a record back gives the fixture it came from: each field is copied, none is lost or swapped. */
  lemma RecordRoundTrip(f: FixtureJson)
    ensures FromRecord(ToRecord(f)) == f
  {
  }

  /** Two fixtures give the same record only when they are the same fixture. */
  lemma ToRecordInjective(f: FixtureJson, g: FixtureJson)
    ensures ToRecord(f) == ToRecord(g) <==> f == g
  {
    if ToRecord(f) == ToRecord(g) {
      RecordRoundTrip(f);
      RecordRoundTrip(g);
    }
  }

  /**
   * `get_laliga_fixtures`: the empty list when the API reports errors or the
   * body has no `response`; a TypeError when `response` is null (the
   * `len()` of None in the progress message, before any slicing); otherwise
   * the records of `response[:limit]`, in order.
   */
  method GetLaligaFixtures(season: int, limit: int, fetch: FixturesFetch)
    returns (r: Result<seq<map<string, Cell>>, Exception>)
    ensures |fetch(season).errors| > 0 ==> r == Success([])
    ensures |fetch(season).errors| == 0 && fetch(season).response.Absent? ==> r == Success([])
    ensures |fetch(season).errors| == 0 && fetch(season).response.Null? ==>
      r == Failure(TypeError("object of type 'NoneType' has no len()"))
    ensures |fetch(season).errors| == 0 && fetch(season).response.Present? ==>
      r.Success? &&
      |r.value| == |PyPrefix(fetch(season).response.value, limit)| &&
      forall k :: 0 <= k < |r.value| ==> r.value[k] == ToRecord(fetch(season).response.value[k])
  {
    var data := fetch(season);
    if |data.errors| > 0 {
      return Success([]);
    }
    var fixturesRaw: seq<FixtureJson>;
    match data.response {
      case Absent => fixturesRaw := [];
      case Null => return Failure(TypeError("object of type 'NoneType' has no len()"));
      case Present(raw) => fixturesRaw := raw;
    }
    var selected := PyPrefix(fixturesRaw, limit);
    var fixturesClean: seq<map<string, Cell>> := [];
    for i := 0 to |selected|
      invariant |fixturesClean| == i
      invariant forall k :: 0 <= k < i ==> fixturesClean[k] == ToRecord(selected[k])
    {
      fixturesClean := fixturesClean + [ToRecord(selected[i])];
    }
    r := Success(fixturesClean);
  }

  /** The output length is `min(limit, len(response))` for a non-negative limit: 380 records at most by default. */
  lemma DefaultLimitBound(raw: seq<FixtureJson>, limit: int)
    requires limit >= 0
    ensures |PyPrefix(raw, limit)| <= limit && |PyPrefix(raw, limit)| <= |raw|
    ensures |raw| <= limit ==> PyPrefix(raw, limit) == raw
    ensures |PyPrefix(raw, DefaultLimit)| == if |raw| < 380 then |raw| else 380
  {
  }

  /** `[f["fixture_id"] for f in fixtures]`: the ids the statistics download visits. */
  function FixtureIds(records: seq<map<string, Cell>>): (ids: seq<Cell>)
    requires forall k :: 0 <= k < |records| ==> "fixture_id" in records[k]
    ensures |ids| == |records|
  {
    seq(|records|, k requires 0 <= k < |records| => records[k]["fixture_id"])
  }

  /** The ids are those of the fixtures in the response, in response order. */
  lemma FixtureIdsOfResponse(raw: seq<FixtureJson>, records: seq<map<string, Cell>>)
    requires |records| <= |raw|
    requires forall k :: 0 <= k < |records| ==> records[k] == ToRecord(raw[k])
    ensures forall k :: 0 <= k < |records| ==> "fixture_id" in records[k]
    ensures forall k :: 0 <= k < |records| ==> FixtureIds(records)[k] == raw[k].fixture.id
  {
  }
}
