/**
 * get_statistics.py: per-match statistics from the fixtures/statistics
 * endpoint. A response carries two team blocks (home, away), each a list of
 * named statistics; percentages such as "35%" are turned into numbers, the
 * two lists become dictionaries, and those are flattened into one record
 * keyed `fixture_id`, `home_<name>` and `away_<name>`. The download loop
 * collects the records of the first `total` fixtures. The HTTP request and
 * Python's `float()` are parameters.
 */
module Statistics {
  import opened Wrappers
  import opened Frames

  /** One entry of a team's `statistics` list: its `type` and its `value` (`None` for JSON null). */
  datatype StatEntry = StatEntry(name: string, value: Cell)

  /** One block of the response: a team's statistics. */
  datatype TeamBlock = TeamBlock(statistics: seq<StatEntry>)

  /** The decoded JSON body: the `errors` list (empty when absent) and the `response` field. */
  datatype StatsPayload = StatsPayload(errors: seq<string>, response: JsonField<seq<TeamBlock>>)

  /** The HTTP request for one fixture id. */
  type StatsFetch = int -> StatsPayload

  /** A flat record: a dictionary from column name to value. */
  type Record = map<string, Cell>

  // ---------------------------------------------------------------------
  // parse_stats
  // ---------------------------------------------------------------------

  /** `s.replace(c, "")`. */
  function RemoveAll(s: string, c: char): (r: string)
    ensures c !in r
    ensures multiset(r) == multiset(s)[c := 0]
    ensures c !in s ==> r == s
  {
    if s == [] then []
    else
      var rest := RemoveAll(s[1..], c);
      assert s == [s[0]] + s[1..];
      if s[0] == c then rest else [s[0]] + rest
  }

  /** A value that is a string containing "%" becomes the float of the string without its "%" signs; any other value is kept. */
  function ParseValue(v: Cell, parse: FloatParser): Result<Cell, Exception> {
    if v.Some? && v.value.StrVal? && '%' in v.value.s then
      match parse(RemoveAll(v.value.s, '%'))
      case None => Failure(ValueError("could not convert string to float"))
      case Some(x) => Success(Some(RealVal(x)))
    else Success(v)
  }

  /**
   * A percentage is parsed from its text with every "%" removed and no other
   * change, anything else is stored as it came, and a stored value never
   * holds a "%" string, so parsing it again changes nothing.
   */
  lemma ParseValueSpec(v: Cell, parse: FloatParser)
    ensures v.Some? && v.value.StrVal? && '%' in v.value.s ==>
      var text := RemoveAll(v.value.s, '%');
      '%' !in text && |text| < |v.value.s| && multiset(text) == multiset(v.value.s)[ '%' := 0] &&
      (ParseValue(v, parse).Success? <==> parse(text).Some?)
    ensures !(v.Some? && v.value.StrVal? && '%' in v.value.s) ==> ParseValue(v, parse) == Success(v)
    ensures ParseValue(v, parse).Success? ==> ParseValue(ParseValue(v, parse).value, parse) == ParseValue(v, parse)
  {
    if v.Some? && v.value.StrVal? && '%' in v.value.s {
      var s := v.value.s;
      var text := RemoveAll(s, '%');
      assert multiset(s)['%'] > 0;
      assert |multiset(text)| < |multiset(s)| by {
        assert multiset(text) <= multiset(s);
        assert multiset(text) != multiset(s);
      }
    }
  }

  /** `parse_stats`: the entries folded into a dictionary in list order, so a later entry of the same name wins. */
  function StatsMap(stats: seq<StatEntry>, parse: FloatParser): Result<map<string, Cell>, Exception> {
    if stats == [] then Success(map[])
    else
      match StatsMap(stats[..|stats| - 1], parse)
      case Failure(e) => Failure(e)
      case Success(m) =>
        var last := stats[|stats| - 1];
        match ParseValue(last.value, parse)
        case Failure(e) => Failure(e)
        case Success(v) => Success(m[last.name := v])
  }

  /** Once a prefix of the list raises, the whole list raises the same error. */
  lemma {:induction false} StatsMapFailurePersists(stats: seq<StatEntry>, i: nat, parse: FloatParser)
    requires i <= |stats| && StatsMap(stats[..i], parse).Failure?
    ensures StatsMap(stats, parse) == StatsMap(stats[..i], parse)
    decreases |stats| - i
  {
    if i < |stats| {
      assert stats[..i + 1][..i] == stats[..i];
      StatsMapFailurePersists(stats, i + 1, parse);
    } else {
      assert stats[..i] == stats;
    }
  }

  /** The names of the entries. */
  function Names(stats: seq<StatEntry>): set<string> {
    set e | e in stats :: e.name
  }

  /** A successful parse has one key per distinct name, and every entry's value parsed. */
  lemma {:induction false} StatsMapKeys(stats: seq<StatEntry>, parse: FloatParser)
    requires StatsMap(stats, parse).Success?
    ensures StatsMap(stats, parse).value.Keys == Names(stats)
    ensures forall e :: e in stats ==> ParseValue(e.value, parse).Success?
  {
    if stats != [] {
      var n := |stats| - 1;
      StatsMapKeys(stats[..n], parse);
      assert stats == stats[..n] + [stats[n]];
      assert Names(stats) == Names(stats[..n]) + {stats[n].name};
    }
  }

  /** Each name holds the parsed value of the last entry carrying it: a later duplicate overwrites an earlier one. */
  lemma {:induction false} StatsMapLastWins(stats: seq<StatEntry>, parse: FloatParser, j: nat)
    requires StatsMap(stats, parse).Success? && j < |stats|
    requires forall l :: j < l < |stats| ==> stats[l].name != stats[j].name
    ensures stats[j].name in StatsMap(stats, parse).value && ParseValue(stats[j].value, parse).Success?
    ensures StatsMap(stats, parse).value[stats[j].name] == ParseValue(stats[j].value, parse).value
  {
    var n := |stats| - 1;
    if j < n {
      assert stats[..n][j] == stats[j];
      StatsMapLastWins(stats[..n], parse, j);
    }
  }

  /** `parse_stats` as the script runs it: a loop filling `stats_dict`. */
  method ParseStats(stats: seq<StatEntry>, parse: FloatParser) returns (r: Result<map<string, Cell>, Exception>)
    ensures r == StatsMap(stats, parse)
  {
    var statsDict: map<string, Cell> := map[];
    for i := 0 to |stats|
      invariant StatsMap(stats[..i], parse) == Success(statsDict)
    {
      assert stats[..i + 1][..i] == stats[..i];
      var v := ParseValue(stats[i].value, parse);
      if v.Failure? {
        StatsMapFailurePersists(stats, i + 1, parse);
        return Failure(v.error);
      }
      statsDict := statsDict[stats[i].name := v.value];
    }
    assert stats[..|stats|] == stats;
    r := Success(statsDict);
  }

  // ---------------------------------------------------------------------
  // The flat record
  // ---------------------------------------------------------------------

  /** `key` is `prefix` followed by a name of `m`. */
  predicate PrefixedKey(prefix: string, key: string, m: map<string, Cell>) {
    |prefix| <= |key| && key[..|prefix|] == prefix && key[|prefix|..] in m
  }

  lemma Split(prefix: string, k: string)
    ensures (prefix + k)[..|prefix|] == prefix && (prefix + k)[|prefix|..] == k
  {
  }

  /** The entries of `m`, each name behind `prefix`. */
  function Prefixed(prefix: string, m: map<string, Cell>): (p: map<string, Cell>)
    ensures forall k :: k in m ==> prefix + k in p && p[prefix + k] == m[k]
    ensures forall key :: key in p ==> PrefixedKey(prefix, key, m)
  {
    var p := map key | key in (set k | k in m :: prefix + k) :: m[key[|prefix|..]];
    forall k | k in m ensures prefix + k in p && p[prefix + k] == m[k] {
      Split(prefix, k);
    }
    forall key | key in p ensures PrefixedKey(prefix, key, m) {
      var k :| k in m && key == prefix + k;
      Split(prefix, k);
    }
    p
  }

  /** Every prefixed key starts with the prefix's first letter. */
  lemma PrefixedHead(prefix: string, m: map<string, Cell>)
    requires |prefix| > 0
    ensures forall key :: key in Prefixed(prefix, m) ==> |key| > 0 && key[0] == prefix[0]
  {
    forall key | key in Prefixed(prefix, m) ensures |key| > 0 && key[0] == prefix[0] {
      assert key[..|prefix|][0] == prefix[0];
    }
  }

  /**
   * `flat = {"fixture_id": fixture_id}` extended with `home_<k>` for every
   * home statistic and `away_<k>` for every away statistic: exactly those
   * keys, each with its value, none overwriting another.
   */
  function Flat(fixtureId: int, home: map<string, Cell>, away: map<string, Cell>): (flat: Record)
    ensures "fixture_id" in flat && flat["fixture_id"] == Some(IntVal(fixtureId))
    ensures forall k :: k in home ==> "home_" + k in flat && flat["home_" + k] == home[k]
    ensures forall k :: k in away ==> "away_" + k in flat && flat["away_" + k] == away[k]
    ensures forall key :: key in flat ==>
      key == "fixture_id" || PrefixedKey("home_", key, home) || PrefixedKey("away_", key, away)
  {
    var h, a := Prefixed("home_", home), Prefixed("away_", away);
    PrefixedHead("home_", home);
    PrefixedHead("away_", away);
    map["fixture_id" := Some(IntVal(fixtureId))] + h + a
  }

  /** Prefixing is injective, so the prefixed dictionary has as many keys as the original. */
  lemma {:induction false} PrefixedSize(prefix: string, m: map<string, Cell>)
    ensures |Prefixed(prefix, m).Keys| == |m.Keys|
    decreases |m.Keys|
  {
    if m.Keys != {} {
      var k :| k in m.Keys;
      PrefixedSizeStep(prefix, m, k);
      PrefixedSize(prefix, m - {k});
    } else {
      assert Prefixed(prefix, m).Keys == {};
    }
  }

  lemma PrefixedSizeStep(prefix: string, m: map<string, Cell>, k: string)
    requires k in m
    ensures Prefixed(prefix, m).Keys == Prefixed(prefix, m - {k}).Keys + {prefix + k}
    ensures prefix + k !in Prefixed(prefix, m - {k}).Keys
  {
    Split(prefix, k);
    var p, q := Prefixed(prefix, m), Prefixed(prefix, m - {k});
    forall key | key in p ensures key in q || key == prefix + k {
      if key[|prefix|..] != k {
        Split(prefix, key[|prefix|..]);
        assert key == prefix + key[|prefix|..];
      } else {
        assert key == key[..|prefix|] + key[|prefix|..];
      }
    }
  }

  /** The home, away and fixture_id keys never collide: the record has 1 + |home| + |away| keys. */
  lemma FlatSize(fixtureId: int, home: map<string, Cell>, away: map<string, Cell>)
    ensures |Flat(fixtureId, home, away).Keys| == 1 + |home.Keys| + |away.Keys|
  {
    PrefixedSize("home_", home);
    PrefixedSize("away_", away);
    FlatKeys(fixtureId, home, away);
    PrefixedDisjoint(home, away);
    var h, a := Prefixed("home_", home).Keys, Prefixed("away_", away).Keys;
    DisjointUnionSize({"fixture_id"}, h);
    DisjointUnionSize({"fixture_id"} + h, a);
  }

  /** No key of one prefixed dictionary is `fixture_id` or a key of the other. */
  lemma PrefixedDisjoint(home: map<string, Cell>, away: map<string, Cell>)
    ensures {"fixture_id"} !! Prefixed("home_", home).Keys
    ensures {"fixture_id"} + Prefixed("home_", home).Keys !! Prefixed("away_", away).Keys
  {
    PrefixedHead("home_", home);
    PrefixedHead("away_", away);
    assert "fixture_id"[0] == 'f';
  }

  lemma FlatKeys(fixtureId: int, home: map<string, Cell>, away: map<string, Cell>)
    ensures Flat(fixtureId, home, away).Keys == {"fixture_id"} + Prefixed("home_", home).Keys + Prefixed("away_", away).Keys
  {
  }

  lemma DisjointUnionSize(x: set<string>, y: set<string>)
    requires x !! y
    ensures |x + y| == |x| + |y|
  {
    assert x * y == {};
  }

  /** The script's two loops inserting `home_<k>` and `away_<k>` into `flat`. */
  method Flatten(fixtureId: int, home: map<string, Cell>, away: map<string, Cell>) returns (flat: Record)
    ensures flat == Flat(fixtureId, home, away)
  {
    flat := map["fixture_id" := Some(IntVal(fixtureId))];
    var keys := home.Keys;
    while keys != {}
      invariant keys <= home.Keys
      invariant "fixture_id" in flat && flat["fixture_id"] == Some(IntVal(fixtureId))
      invariant forall k :: k in home && k !in keys ==> "home_" + k in flat && flat["home_" + k] == home[k]
      invariant forall key :: key in flat ==> key == "fixture_id" || PrefixedKey("home_", key, home)
      decreases keys
    {
      var k :| k in keys;
      Split("home_", k);
      assert ("home_" + k)[0] == 'h';
      flat := flat["home_" + k := home[k]];
      keys := keys - {k};
    }
    keys := away.Keys;
    while keys != {}
      invariant keys <= away.Keys
      invariant "fixture_id" in flat && flat["fixture_id"] == Some(IntVal(fixtureId))
      invariant forall k :: k in home ==> "home_" + k in flat && flat["home_" + k] == home[k]
      invariant forall k :: k in away && k !in keys ==> "away_" + k in flat && flat["away_" + k] == away[k]
      invariant forall key :: key in flat ==>
        key == "fixture_id" || PrefixedKey("home_", key, home) || PrefixedKey("away_", key, away)
      decreases keys
    {
      var k :| k in keys;
      Split("away_", k);
      assert ("away_" + k)[0] == 'a';
      assert forall j :: j in home ==> ("home_" + j)[0] == 'h';
      flat := flat["away_" + k := away[k]];
      keys := keys - {k};
    }
    FlatUnique(fixtureId, home, away, flat);
  }

  /** A record with the fixture id, every prefixed home and away value and no other key is the flat record. */
  lemma FlatUnique(fixtureId: int, home: map<string, Cell>, away: map<string, Cell>, flat: Record)
    requires "fixture_id" in flat && flat["fixture_id"] == Some(IntVal(fixtureId))
    requires forall k :: k in home ==> "home_" + k in flat && flat["home_" + k] == home[k]
    requires forall k :: k in away ==> "away_" + k in flat && flat["away_" + k] == away[k]
    requires forall key :: key in flat ==>
      key == "fixture_id" || PrefixedKey("home_", key, home) || PrefixedKey("away_", key, away)
    ensures flat == Flat(fixtureId, home, away)
  {
    var f := Flat(fixtureId, home, away);
    forall key | key in flat || key in f
      ensures key in flat && key in f && f[key] == flat[key]
    {
      if key != "fixture_id" {
        if PrefixedKey("home_", key, home) {
          Split("home_", key[5..]);
          assert key == "home_" + key[5..];
        } else {
          Split("away_", key[5..]);
          assert key == "away_" + key[5..];
        }
      }
    }
  }

  // ---------------------------------------------------------------------
  // get_match_statistics and download_all_stats
  // ---------------------------------------------------------------------

  /**
   * `get_match_statistics` on a decoded body: `None` when the API reports
   * errors, when `response` is missing, null or empty, or when it has fewer
   * than two blocks (the IndexError the bare `except` swallows); otherwise
   * the flat record of the first two blocks. A bad percentage raises.
   */
  function MatchStatistics(fixtureId: int, data: StatsPayload, parse: FloatParser): Result<Option<Record>, Exception> {
    if |data.errors| > 0 then Success(None)
    else if !data.response.Present? || |data.response.value| == 0 then Success(None)
    else if |data.response.value| < 2 then Success(None)
    else
      match StatsMap(data.response.value[0].statistics, parse)
      case Failure(e) => Failure(e)
      case Success(home) =>
        match StatsMap(data.response.value[1].statistics, parse)
        case Failure(e) => Failure(e)
        case Success(away) => Success(Some(Flat(fixtureId, home, away)))
  }

  /** A record is produced exactly when the body has no errors and at least two blocks, and then it is built from the first two alone. */
  lemma MatchStatisticsCases(fixtureId: int, data: StatsPayload, parse: FloatParser)
    ensures MatchStatistics(fixtureId, data, parse).Success? && MatchStatistics(fixtureId, data, parse).value.Some? <==>
      |data.errors| == 0 && data.response.Present? && |data.response.value| >= 2 &&
      StatsMap(data.response.value[0].statistics, parse).Success? &&
      StatsMap(data.response.value[1].statistics, parse).Success?
    ensures |data.errors| > 0 || !data.response.Present? || |data.response.value| < 2 ==>
      MatchStatistics(fixtureId, data, parse) == Success(None)
    ensures forall extra :: data.response.Present? && |data.response.value| >= 2 ==>
      MatchStatistics(fixtureId, data, parse) ==
      MatchStatistics(fixtureId, StatsPayload(data.errors, Present(data.response.value[..2] + extra)), parse)
  {
    forall extra | data.response.Present? && |data.response.value| >= 2
      ensures MatchStatistics(fixtureId, data, parse) ==
        MatchStatistics(fixtureId, StatsPayload(data.errors, Present(data.response.value[..2] + extra)), parse)
    {
      var blocks := data.response.value[..2] + extra;
      assert blocks[0] == data.response.value[0] && blocks[1] == data.response.value[1];
    }
  }

  /** `get_match_statistics` as the script runs it. */
  method GetMatchStatistics(fixtureId: int, fetch: StatsFetch, parse: FloatParser) returns (r: Result<Option<Record>, Exception>)
    ensures r == MatchStatistics(fixtureId, fetch(fixtureId), parse)
  {
    var data := fetch(fixtureId);
    if |data.errors| > 0 {
      return Success(None);
    }
    if !data.response.Present? || |data.response.value| == 0 {
      return Success(None);
    }
    if |data.response.value| < 2 {
      return Success(None);
    }
    var homeStats, awayStats := data.response.value[0], data.response.value[1];
    var home := ParseStats(homeStats.statistics, parse);
    if home.Failure? {
      return Failure(home.error);
    }
    var away := ParseStats(awayStats.statistics, parse);
    if away.Failure? {
      return Failure(away.error);
    }
    var flat := Flatten(fixtureId, home.value, away.value);
    r := Success(Some(flat));
  }

  /** `total`: every id when `limit` is falsy (None or 0), otherwise `min(limit, len(ids))`. */
  function Total(n: nat, limit: Option<int>): int {
    if limit.None? || limit.value == 0 then n
    else if limit.value < n then limit.value else n
  }

  /**
   * The ids the loop visits, `fixture_ids[:total]`: all of them for a falsy
   * limit, the first `min(limit, n)` for a positive one, and (as Python's
   * slice reads a negative bound) all but the last `-limit` for a negative one.
   */
  lemma VisitedIds(ids: seq<int>, limit: Option<int>)
    ensures limit.None? || limit.value == 0 ==> PyPrefix(ids, Total(|ids|, limit)) == ids
    ensures limit.Some? && limit.value > 0 ==>
      PyPrefix(ids, Total(|ids|, limit)) == ids[..if limit.value < |ids| then limit.value else |ids|]
    ensures limit.Some? && limit.value < 0 ==>
      PyPrefix(ids, Total(|ids|, limit)) == ids[..if |ids| + limit.value > 0 then |ids| + limit.value else 0]
  {
  }

  /** The records of `ids` in order, skipping the fixtures that give `None`; the first raise stops the run. */
  function CollectStats(ids: seq<int>, fetch: StatsFetch, parse: FloatParser): Result<seq<Record>, Exception> {
    if ids == [] then Success([])
    else
      match CollectStats(ids[..|ids| - 1], fetch, parse)
      case Failure(e) => Failure(e)
      case Success(rows) =>
        var id := ids[|ids| - 1];
        match MatchStatistics(id, fetch(id), parse)
        case Failure(e) => Failure(e)
        case Success(None) => Success(rows)
        case Success(Some(row)) => Success(rows + [row])
  }

  lemma {:induction false} CollectStatsFailurePersists(ids: seq<int>, i: nat, fetch: StatsFetch, parse: FloatParser)
    requires i <= |ids| && CollectStats(ids[..i], fetch, parse).Failure?
    ensures CollectStats(ids, fetch, parse) == CollectStats(ids[..i], fetch, parse)
    decreases |ids| - i
  {
    if i < |ids| {
      assert ids[..i + 1][..i] == ids[..i];
      CollectStatsFailurePersists(ids, i + 1, fetch, parse);
    } else {
      assert ids[..i] == ids;
    }
  }

  /** The fixture id each record carries. */
  function RecordIds(rows: seq<Record>): seq<Cell>
    requires forall k :: 0 <= k < |rows| ==> "fixture_id" in rows[k]
  {
    seq(|rows|, k requires 0 <= k < |rows| => rows[k]["fixture_id"])
  }

  function AsCells(ids: seq<int>): (cells: seq<Cell>)
    ensures |cells| == |ids|
  {
    seq(|ids|, k requires 0 <= k < |ids| => Some(IntVal(ids[k])))
  }

  /** The collected records: at most one per id, each carrying the fixture id it was fetched for. */
  lemma {:induction false} CollectStatsBound(ids: seq<int>, fetch: StatsFetch, parse: FloatParser)
    requires CollectStats(ids, fetch, parse).Success?
    ensures |CollectStats(ids, fetch, parse).value| <= |ids|
    ensures forall row :: row in CollectStats(ids, fetch, parse).value ==>
      "fixture_id" in row && row["fixture_id"] in AsCells(ids)
  {
    if ids != [] {
      var n := |ids| - 1;
      CollectStatsBound(ids[..n], fetch, parse);
      assert forall c :: c in AsCells(ids[..n]) ==> c in AsCells(ids) by {
        assert AsCells(ids)[..n] == AsCells(ids[..n]);
      }
      assert AsCells(ids)[n] == Some(IntVal(ids[n]));
    }
  }

  /** The records come in the order of their fixture ids: the record ids are a subsequence of the visited ids. */
  lemma {:induction false} CollectStatsOrder(ids: seq<int>, fetch: StatsFetch, parse: FloatParser)
    requires CollectStats(ids, fetch, parse).Success?
    ensures forall k :: 0 <= k < |CollectStats(ids, fetch, parse).value| ==>
      "fixture_id" in CollectStats(ids, fetch, parse).value[k]
    ensures IsSubsequence(RecordIds(CollectStats(ids, fetch, parse).value), AsCells(ids))
  {
    if ids != [] {
      var n := |ids| - 1;
      CollectStatsLast(ids, fetch, parse);
      CollectStatsOrder(ids[..n], fetch, parse);
      var rows := CollectStats(ids[..n], fetch, parse).value;
      var out := CollectStats(ids, fetch, parse).value;
      var cells := AsCells(ids);
      AsCellsLast(ids);
      if out == rows {
        SubsequenceExtend(RecordIds(rows), cells);
      } else {
        assert out == rows + [out[|rows|]];
        RecordIdsAppend(rows, out[|rows|]);
        SubsequenceAppend(RecordIds(rows), AsCells(ids[..n]), cells[n]);
      }
    }
  }

  lemma AsCellsLast(ids: seq<int>)
    requires ids != []
    ensures AsCells(ids) == AsCells(ids[..|ids| - 1]) + [Some(IntVal(ids[|ids| - 1]))]
  {
  }

  lemma RecordIdsAppend(rows: seq<Record>, row: Record)
    requires forall k :: 0 <= k < |rows| ==> "fixture_id" in rows[k]
    requires "fixture_id" in row
    ensures forall k :: 0 <= k < |rows + [row]| ==> "fixture_id" in (rows + [row])[k]
    ensures RecordIds(rows + [row]) == RecordIds(rows) + [row["fixture_id"]]
  {
  }

  /** One more id adds at most its own record to the end. */
  lemma CollectStatsLast(ids: seq<int>, fetch: StatsFetch, parse: FloatParser)
    requires ids != [] && CollectStats(ids, fetch, parse).Success?
    ensures CollectStats(ids[..|ids| - 1], fetch, parse).Success?
    ensures
      var rows, out := CollectStats(ids[..|ids| - 1], fetch, parse).value, CollectStats(ids, fetch, parse).value;
      out == rows ||
      (|out| == |rows| + 1 && out[..|rows|] == rows && "fixture_id" in out[|rows|] &&
       out[|rows|]["fixture_id"] == Some(IntVal(ids[|ids| - 1])))
  {
  }

  /**
   * What one more id adds: nothing exactly when its statistics come back
   * as `None`, and otherwise the record fetched for it.
   */
  lemma CollectStatsStep(ids: seq<int>, fetch: StatsFetch, parse: FloatParser)
    requires ids != [] && CollectStats(ids, fetch, parse).Success?
    ensures CollectStats(ids[..|ids| - 1], fetch, parse).Success?
    ensures MatchStatistics(ids[|ids| - 1], fetch(ids[|ids| - 1]), parse).Success?
    ensures
      var rows, out := CollectStats(ids[..|ids| - 1], fetch, parse).value, CollectStats(ids, fetch, parse).value;
      var m := MatchStatistics(ids[|ids| - 1], fetch(ids[|ids| - 1]), parse).value;
      (out == rows <==> m.None?) && (m.Some? ==> out == rows + [m.value])
  {
  }

  /** Every collected record is the record fetched for one of the visited ids. */
  lemma {:induction false} CollectStatsSound(ids: seq<int>, fetch: StatsFetch, parse: FloatParser)
    requires CollectStats(ids, fetch, parse).Success?
    ensures forall row :: row in CollectStats(ids, fetch, parse).value ==>
      exists id :: id in ids && MatchStatistics(id, fetch(id), parse) == Success(Some(row))
  {
    if ids != [] {
      var n := |ids| - 1;
      CollectStatsSound(ids[..n], fetch, parse);
      CollectStatsStep(ids, fetch, parse);
      var rows, out := CollectStats(ids[..n], fetch, parse).value, CollectStats(ids, fetch, parse).value;
      var m := MatchStatistics(ids[n], fetch(ids[n]), parse).value;
      forall row | row in out
        ensures exists id :: id in ids && MatchStatistics(id, fetch(id), parse) == Success(Some(row))
      {
        if row in rows {
          var id :| id in ids[..n] && MatchStatistics(id, fetch(id), parse) == Success(Some(row));
          assert id in ids by { assert ids[..n] <= ids; }
        } else {
          assert row == m.value;
          assert ids[n] in ids;
        }
      }
    }
  }

  /** Every fixture visited before the end yields a record or `None` without raising, and every record it yields is collected. */
  lemma {:induction false} CollectStatsComplete(ids: seq<int>, fetch: StatsFetch, parse: FloatParser)
    requires CollectStats(ids, fetch, parse).Success?
    ensures forall id :: id in ids ==> MatchStatistics(id, fetch(id), parse).Success?
    ensures forall id :: id in ids && MatchStatistics(id, fetch(id), parse).value.Some? ==>
      MatchStatistics(id, fetch(id), parse).value.value in CollectStats(ids, fetch, parse).value
  {
    if ids != [] {
      var n := |ids| - 1;
      CollectStatsComplete(ids[..n], fetch, parse);
      assert ids == ids[..n] + [ids[n]];
    }
  }

  /** `download_all_stats`: visits `fixture_ids[:total]` in order and keeps every record that is not `None`. */
  method DownloadAllStats(ids: seq<int>, limit: Option<int>, fetch: StatsFetch, parse: FloatParser)
    returns (r: Result<seq<Record>, Exception>)
    ensures r == CollectStats(PyPrefix(ids, Total(|ids|, limit)), fetch, parse)
  {
    var total := Total(|ids|, limit);
    var visited := PyPrefix(ids, total);
    var statsRows: seq<Record> := [];
    for i := 0 to |visited|
      invariant CollectStats(visited[..i], fetch, parse) == Success(statsRows)
    {
      assert visited[..i + 1][..i] == visited[..i];
      var row := GetMatchStatistics(visited[i], fetch, parse);
      if row.Failure? {
        CollectStatsFailurePersists(visited, i + 1, fetch, parse);
        return Failure(row.error);
      }
      if row.value.Some? {
        statsRows := statsRows + [row.value.value];
      }
    }
    assert visited[..|visited|] == visited;
    r := Success(statsRows);
  }
}
