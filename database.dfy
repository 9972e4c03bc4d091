/**
 * The prediction history table of `utils/database.py`, kept in memory: rows with
 * AUTOINCREMENT ids that are inserted, looked up, listed newest first, searched with
 * SQL `LIKE`, deleted and summarised.
 */
module Database {
  import opened Wrappers
  import opened Text

  /** The `parameters` dictionary, stored as the dictionary rather than as its JSON text. */
  type Parameters = map<string, string>

  /** The dictionary passed to `add_record`: a field is None when its key is absent. */
  datatype RecordData = RecordData(
    timestamp: Option<string>,
    modelPath: Option<string>,
    sourcePath: Option<string>,
    sourceType: Option<string>,
    resultPath: Option<string>,
    parameters: Option<Parameters>,
    success: Option<bool>,
    errorMessage: Option<string>,
    inferenceTime: Option<real>,
    numDetections: Option<int>)

  /** A row of `prediction_history`; `success` is the stored integer. */
  datatype Row = Row(
    id: nat,
    timestamp: string,
    modelPath: string,
    sourcePath: string,
    sourceType: string,
    resultPath: string,
    parameters: Parameters,
    success: int,
    errorMessage: string,
    inferenceTime: real,
    numDetections: int)

  /** The row `add_record` inserts: every absent field takes its default, `now` standing for the clock. */
  function NewRow(id: nat, data: RecordData, now: string): Row {
    Row(id,
        data.timestamp.GetOr(now),
        data.modelPath.GetOr(""),
        data.sourcePath.GetOr(""),
        data.sourceType.GetOr(""),
        data.resultPath.GetOr(""),
        data.parameters.GetOr(map[]),
        if data.success.GetOr(true) then 1 else 0,
        data.errorMessage.GetOr(""),
        data.inferenceTime.GetOr(0.0),
        data.numDetections.GetOr(0))
  }

  const NoFields := RecordData(None, None, None, None, None, None, None, None, None, None)

  /** An empty record is stored with the defaults: empty texts, `{}`, success, 0.0 seconds and 0 detections. */
  lemma NewRowDefaults(id: nat, now: string)
    ensures NewRow(id, NoFields, now) == Row(id, now, "", "", "", "", map[], 1, "", 0.0, 0)
  {
  }

  /** The stored success flag is 1 or 0, and 1 exactly when the record does not say it failed. */
  lemma NewRowSuccess(id: nat, data: RecordData, now: string)
    ensures NewRow(id, data, now).success in {0, 1}
    ensures NewRow(id, data, now).success == 1 <==> data.success != Some(false)
  {
  }

  // ---------------------------------------------------------------------------
  // Lookup, listing and deletion over the rows
  // ---------------------------------------------------------------------------

  /** The row with the given id, as `SELECT * ... WHERE id = ?` finds it. */
  function Find(rows: seq<Row>, id: int): (r: Option<Row>)
    ensures r.Some? <==> exists i :: 0 <= i < |rows| && rows[i].id == id
    ensures r.Some? ==> r.value in rows && r.value.id == id
  {
    if rows == [] then None
    else if rows[0].id == id then Some(rows[0])
    else
      var r := Find(rows[1..], id);
      assert forall i :: 1 <= i < |rows| ==> rows[i] == rows[1..][i - 1];
      r
  }

  /** The rows left by `DELETE ... WHERE id = ?`, in their order. */
  function Without(rows: seq<Row>, id: int): (r: seq<Row>)
    ensures |r| <= |rows|
    ensures forall x :: x in r <==> x in rows && x.id != id
  {
    if rows == [] then []
    else (if rows[0].id == id then [] else [rows[0]]) + Without(rows[1..], id)
  }

  /** After a delete, the id is gone and every other id finds what it found before. */
  lemma {:induction false} FindAfterDelete(rows: seq<Row>, id: int, other: int)
    ensures Find(Without(rows, id), id).None?
    ensures other != id ==> Find(Without(rows, id), other) == Find(rows, other)
  {
    if rows != [] && other != id {
      var rest := Without(rows[1..], id);
      FindAfterDelete(rows[1..], id, other);
      if rows[0].id == id {
        assert Without(rows, id) == rest;
      } else {
        var r := [rows[0]] + rest;
        assert Without(rows, id) == r;
        assert r[0] == rows[0] && r[1..] == rest;
      }
    }
  }

  /** Ids increase along the rows. */
  predicate Increasing(rows: seq<Row>) {
    forall i, j :: 0 <= i < j < |rows| ==> rows[i].id < rows[j].id
  }

  /** Ids decrease along the rows: newest first. */
  predicate Decreasing(rows: seq<Row>) {
    forall i, j :: 0 <= i < j < |rows| ==> rows[i].id > rows[j].id
  }

  lemma IncreasingCons(row: Row, rows: seq<Row>)
    requires Increasing(rows)
    requires forall x :: x in rows ==> row.id < x.id
    ensures Increasing([row] + rows)
  {
    var r := [row] + rows;
    forall i, j | 0 <= i < j < |r| ensures r[i].id < r[j].id {
      assert r[j] == rows[j - 1];
      if i > 0 {
        assert r[i] == rows[i - 1];
      }
    }
  }

  lemma IncreasingTail(rows: seq<Row>)
    requires rows != [] && Increasing(rows)
    ensures Increasing(rows[1..])
    ensures forall x :: x in rows[1..] ==> rows[0].id < x.id
  {
    var tail := rows[1..];
    assert forall k :: 0 <= k < |tail| ==> tail[k] == rows[k + 1];
  }

  /** Deleting keeps the surviving rows in their order, so increasing ids stay increasing. */
  lemma {:induction false} WithoutKeepsOrder(rows: seq<Row>, id: int)
    requires Increasing(rows)
    ensures Increasing(Without(rows, id))
  {
    if rows != [] {
      IncreasingTail(rows);
      WithoutKeepsOrder(rows[1..], id);
      var rest := Without(rows[1..], id);
      if rows[0].id != id {
        assert Without(rows, id) == [rows[0]] + rest;
        IncreasingCons(rows[0], rest);
      }
    }
  }

  /** The rows newest first: `ORDER BY created_at DESC` with one insertion per timestamp. */
  function NewestFirst(rows: seq<Row>): (r: seq<Row>)
    ensures |r| == |rows|
    ensures forall k :: 0 <= k < |rows| ==> r[k] == rows[|rows| - 1 - k]
  {
    seq(|rows|, k requires 0 <= k < |rows| => rows[|rows| - 1 - k])
  }

  /** `LIMIT limit OFFSET offset` over rows already in order. */
  function Window(rows: seq<Row>, limit: nat, offset: nat): seq<Row> {
    if offset >= |rows| then []
    else if offset + limit >= |rows| then rows[offset..]
    else rows[offset..offset + limit]
  }

  // ---------------------------------------------------------------------------
  // SQL LIKE, as `search_records` uses it
  // ---------------------------------------------------------------------------

  /**
   * SQLite's `LIKE` without ESCAPE: `%` matches any run of characters, `_` any one
   * character, and other characters match ignoring ASCII case.
   */
  predicate Like(s: string, p: string)
    decreases |s| + |p|
  {
    if p == [] then s == []
    else if p[0] == '%' then Like(s, p[1..]) || (s != [] && Like(s[1..], p))
    else s != [] && (p[0] == '_' || LowerChar(s[0]) == LowerChar(p[0])) && Like(s[1..], p[1..])
  }

  predicate NoWildcards(keyword: string) {
    forall j :: 0 <= j < |keyword| ==> keyword[j] != '%' && keyword[j] != '_'
  }

  /** `keyword` occurs in `s` at position `i`, ignoring ASCII case. */
  predicate MatchesAt(s: string, keyword: string, i: nat) {
    i + |keyword| <= |s| && forall j :: 0 <= j < |keyword| ==> LowerChar(s[i + j]) == LowerChar(keyword[j])
  }

  /** `keyword` occurs somewhere in `s`, ignoring ASCII case. */
  predicate ContainsIgnoringCase(s: string, keyword: string) {
    exists i :: 0 <= i <= |s| && MatchesAt(s, keyword, i)
  }

  /** A trailing `%` matches whatever follows. */
  lemma {:induction false} LikeAnyRest(s: string)
    ensures Like(s, "%")
  {
    if s != [] {
      LikeAnyRest(s[1..]);
    }
  }

  /** A keyword followed by `%` matches a text that starts with the keyword. */
  lemma {:induction false} LikePrefix(s: string, keyword: string)
    requires NoWildcards(keyword)
    ensures Like(s, keyword + "%") <==> MatchesAt(s, keyword, 0)
  {
    if keyword == [] {
      assert keyword + "%" == "%";
      LikeAnyRest(s);
    } else {
      var p := keyword + "%";
      assert p[0] == keyword[0] && p[1..] == keyword[1..] + "%";
      if s != [] {
        LikePrefix(s[1..], keyword[1..]);
        if MatchesAt(s[1..], keyword[1..], 0) && LowerChar(s[0]) == LowerChar(keyword[0]) {
          forall j | 0 <= j < |keyword| ensures LowerChar(s[j]) == LowerChar(keyword[j]) {
            if j > 0 {
              assert s[1..][j - 1] == s[j] && keyword[1..][j - 1] == keyword[j];
            }
          }
        }
        if MatchesAt(s, keyword, 0) {
          forall j | 0 <= j < |keyword| - 1 ensures LowerChar(s[1..][j]) == LowerChar(keyword[1..][j]) {
            assert s[1..][j] == s[j + 1] && keyword[1..][j] == keyword[j + 1];
          }
        }
      }
    }
  }

  /** A leading `%` lets the rest of the pattern match any suffix. */
  lemma {:induction false} LikeAnySuffix(s: string, q: string)
    ensures Like(s, "%" + q) <==> exists i :: 0 <= i <= |s| && Like(s[i..], q)
  {
    var p := "%" + q;
    assert p[1..] == q;
    assert s[0..] == s;
    if s == [] {
      if exists i :: 0 <= i <= |s| && Like(s[i..], q) {
        var i :| 0 <= i <= |s| && Like(s[i..], q);
        assert i == 0;
      }
    } else {
      LikeAnySuffix(s[1..], q);
      if Like(s[1..], p) {
        var i :| 0 <= i <= |s[1..]| && Like(s[1..][i..], q);
        assert s[1..][i..] == s[i + 1..];
        assert Like(s[i + 1..], q);
      }
      if exists i :: 0 <= i <= |s| && Like(s[i..], q) {
        var i :| 0 <= i <= |s| && Like(s[i..], q);
        if i > 0 {
          assert s[1..][i - 1..] == s[i..];
          assert Like(s[1..], p);
        }
      }
    }
  }

  lemma MatchesAtSuffix(s: string, keyword: string, i: nat)
    requires i <= |s|
    ensures MatchesAt(s[i..], keyword, 0) <==> MatchesAt(s, keyword, i)
  {
    if MatchesAt(s[i..], keyword, 0) {
      forall j | 0 <= j < |keyword| ensures LowerChar(s[i + j]) == LowerChar(keyword[j]) {
        assert s[i..][j] == s[i + j];
      }
    }
  }

  /** For a keyword without wildcards, `LIKE '%keyword%'` is a case-insensitive substring test. */
  lemma LikeContains(s: string, keyword: string)
    requires NoWildcards(keyword)
    ensures Like(s, "%" + keyword + "%") <==> ContainsIgnoringCase(s, keyword)
  {
    assert "%" + keyword + "%" == "%" + (keyword + "%");
    LikeAnySuffix(s, keyword + "%");
    if Like(s, "%" + keyword + "%") {
      var i :| 0 <= i <= |s| && Like(s[i..], keyword + "%");
      LikePrefix(s[i..], keyword);
      MatchesAtSuffix(s, keyword, i);
    }
    if ContainsIgnoringCase(s, keyword) {
      var i :| 0 <= i <= |s| && MatchesAt(s, keyword, i);
      MatchesAtSuffix(s, keyword, i);
      LikePrefix(s[i..], keyword);
    }
  }

  /** `WHERE source_path LIKE ? OR model_path LIKE ?` with the pattern `%keyword%`. */
  predicate SearchHit(row: Row, keyword: string) {
    Like(row.sourcePath, "%" + keyword + "%") || Like(row.modelPath, "%" + keyword + "%")
  }

  /** The rows `hit` accepts, taken from the newest row back to the oldest. */
  function NewestMatching(rows: seq<Row>, hit: Row -> bool): (r: seq<Row>)
    ensures |r| <= |rows|
    ensures forall x :: x in r <==> x in rows && hit(x)
  {
    if rows == [] then []
    else
      var last := rows[|rows| - 1];
      (if hit(last) then [last] else []) + NewestMatching(rows[..|rows| - 1], hit)
  }

  /** Over rows with increasing ids, the matching rows come with strictly decreasing ids. */
  lemma {:induction false} NewestMatchingDecreasing(rows: seq<Row>, hit: Row -> bool)
    requires Increasing(rows)
    ensures Decreasing(NewestMatching(rows, hit))
  {
    if rows != [] {
      var init := rows[..|rows| - 1];
      var last := rows[|rows| - 1];
      assert Increasing(init);
      NewestMatchingDecreasing(init, hit);
      var rest := NewestMatching(init, hit);
      if hit(last) {
        assert forall x :: x in init ==> x.id < last.id by {
          forall x | x in init ensures x.id < last.id {
            var k :| 0 <= k < |init| && init[k] == x;
            assert rows[k] == x;
          }
        }
        DecreasingCons(last, rest);
        assert NewestMatching(rows, hit) == [last] + rest;
      } else {
        assert NewestMatching(rows, hit) == rest;
      }
    }
  }

  lemma DecreasingCons(row: Row, rows: seq<Row>)
    requires Decreasing(rows)
    requires forall x :: x in rows ==> x.id < row.id
    ensures Decreasing([row] + rows)
  {
    var r := [row] + rows;
    forall i, j | 0 <= i < j < |r| ensures r[i].id > r[j].id {
      assert r[j] == rows[j - 1];
      if i > 0 {
        assert r[i] == rows[i - 1];
      }
    }
  }

  /** Of rows listed newest first, the first n are newer than every row left out. */
  lemma NewestPrefix(rows: seq<Row>, n: nat)
    requires Decreasing(rows) && n <= |rows|
    ensures Decreasing(rows[..n])
    ensures forall x, y :: x in rows && x !in rows[..n] && y in rows[..n] ==> x.id < y.id
  {
    var r := rows[..n];
    forall x, y | x in rows && x !in r && y in r ensures x.id < y.id {
      var j :| 0 <= j < |rows| && rows[j] == x;
      var i :| 0 <= i < n && r[i] == y;
    }
  }

  /** `SearchHit` for one keyword, as a predicate on rows. */
  function HitsOf(keyword: string): Row -> bool {
    x => SearchHit(x, keyword)
  }

  /** The rows that match, newest first: `ORDER BY created_at DESC` over the hits. */
  function NewestHits(rows: seq<Row>, keyword: string): (r: seq<Row>)
    ensures |r| <= |rows|
    ensures forall x :: x in r <==> x in rows && SearchHit(x, keyword)
  {
    NewestMatching(rows, HitsOf(keyword))
  }

  /** Over rows with increasing ids, the hits come with strictly decreasing ids: newest first. */
  lemma NewestHitsDecreasing(rows: seq<Row>, keyword: string)
    requires Increasing(rows)
    ensures Decreasing(NewestHits(rows, keyword))
  {
    NewestMatchingDecreasing(rows, HitsOf(keyword));
  }

  /** A search for a plain keyword finds the rows whose source or model path contains it. */
  lemma SearchHitContains(row: Row, keyword: string)
    requires NoWildcards(keyword)
    ensures SearchHit(row, keyword)
            <==> ContainsIgnoringCase(row.sourcePath, keyword) || ContainsIgnoringCase(row.modelPath, keyword)
  {
    LikeContains(row.sourcePath, keyword);
    LikeContains(row.modelPath, keyword);
  }

  // ---------------------------------------------------------------------------
  // get_statistics
  // ---------------------------------------------------------------------------

  /** What `get_statistics` returns. */
  datatype Stats = Stats(total: nat, success: nat, failed: int, avgInferenceTime: real, totalDetections: int)

  /** `COUNT(*) ... WHERE success = 1`. */
  function SuccessCount(rows: seq<Row>): nat {
    if rows == [] then 0 else SuccessCount(rows[..|rows| - 1]) + (if rows[|rows| - 1].success == 1 then 1 else 0)
  }

  /** The sum of `inference_time` over the successful rows. */
  function SuccessTime(rows: seq<Row>): real {
    if rows == [] then 0.0
    else SuccessTime(rows[..|rows| - 1]) + (if rows[|rows| - 1].success == 1 then rows[|rows| - 1].inferenceTime else 0.0)
  }

  /** `SUM(num_detections) ... WHERE success = 1`. */
  function SuccessDetections(rows: seq<Row>): int {
    if rows == [] then 0
    else SuccessDetections(rows[..|rows| - 1]) + (if rows[|rows| - 1].success == 1 then rows[|rows| - 1].numDetections else 0)
  }

  /** `get_statistics`: `AVG` and `SUM` are NULL over no successful row, and `or` turns NULL into 0. */
  function Statistics(rows: seq<Row>): Stats {
    var n := SuccessCount(rows);
    Stats(|rows|, n, |rows| - n,
          if n == 0 then 0.0 else SuccessTime(rows) / n as real,
          if n == 0 then 0 else SuccessDetections(rows))
  }

  lemma {:induction false} SuccessCountBounded(rows: seq<Row>)
    ensures SuccessCount(rows) <= |rows|
    ensures SuccessCount(rows) == 0 ==> SuccessTime(rows) == 0.0 && SuccessDetections(rows) == 0
  {
    if rows != [] {
      SuccessCountBounded(rows[..|rows| - 1]);
    }
  }

  /**
   * The statistics agree: failures are the rows not counted as successes and are never
   * negative, the average times the number of successes is the successes' total time,
   * and with no success the average and the detection sum are 0.
   */
  lemma StatisticsConsistent(rows: seq<Row>)
    ensures var s := Statistics(rows);
      && s.total == |rows|
      && s.success + s.failed == s.total
      && 0 <= s.failed
      && s.avgInferenceTime * s.success as real == SuccessTime(rows)
      && s.totalDetections == SuccessDetections(rows)
  {
    SuccessCountBounded(rows);
  }

  /** One more row counts as one more success or one more failure, and nothing else moves on a failure. */
  lemma StatisticsAfterInsert(rows: seq<Row>, row: Row)
    requires row.success in {0, 1}
    ensures var before := Statistics(rows); var after := Statistics(rows + [row]);
      && after.total == before.total + 1
      && (row.success == 1 ==>
            (&& after.success == before.success + 1 && after.failed == before.failed
             && SuccessDetections(rows + [row]) == SuccessDetections(rows) + row.numDetections))
      && (row.success == 0 ==>
            (&& after.success == before.success && after.failed == before.failed + 1
             && after.avgInferenceTime == before.avgInferenceTime && after.totalDetections == before.totalDetections))
  {
    assert (rows + [row])[..|rows|] == rows;
  }

  /** An empty table has no statistics. */
  lemma EmptyStatistics()
    ensures Statistics([]) == Stats(0, 0, 0, 0.0, 0)
  {
  }

  // ---------------------------------------------------------------------------
  // The table
  // ---------------------------------------------------------------------------

  /**
   * `HistoryDB` over one database file. `lastId` is what SQLite keeps in
   * `sqlite_sequence` for an AUTOINCREMENT key: the largest id ever issued.
   */
  class HistoryDB {
    var rows: seq<Row>
    var lastId: nat

    /** Rows are kept in insertion order with increasing ids, none above the last id issued. */
    predicate Valid()
      reads this
    {
      && Increasing(rows)
      && (forall i :: 0 <= i < |rows| ==> 1 <= rows[i].id <= lastId)
    }

    /** A new, empty database file. */
    constructor ()
      ensures Valid() && rows == [] && lastId == 0
    {
      rows := [];
      lastId := 0;
    }

    /** `add_record`: inserts the row with the next id and returns that id. */
    method AddRecord(data: RecordData, now: string) returns (id: nat)
      requires Valid()
      modifies this
      ensures Valid()
      ensures id == old(lastId) + 1 && lastId == id
      ensures forall i :: 0 <= i < |old(rows)| ==> old(rows)[i].id < id
      ensures rows == old(rows) + [NewRow(id, data, now)]
    {
      id := lastId + 1;
      rows := rows + [NewRow(id, data, now)];
      lastId := id;
    }

    /** `get_record`. */
    function GetRecord(id: int): (r: Option<Row>)
      reads this
      ensures r.Some? <==> exists i :: 0 <= i < |rows| && rows[i].id == id
      ensures r.Some? ==> r.value in rows && r.value.id == id
    {
      Find(rows, id)
    }

    /** `get_all_records`: newest first, `offset` rows skipped, at most `limit` returned. */
    function GetAllRecords(limit: nat, offset: nat): (r: seq<Row>)
      reads this
      ensures |r| <= limit
      ensures |r| == if offset >= |rows| then 0 else if offset + limit >= |rows| then |rows| - offset else limit
      ensures forall k :: 0 <= k < |r| ==> r[k] == rows[|rows| - 1 - offset - k]
    {
      Window(NewestFirst(rows), limit, offset)
    }

    /**
     * `search_records`: the `limit` newest matching rows, newest first; all of them when
     * they fit.
     */
    function SearchRecords(keyword: string, limit: nat): (r: seq<Row>)
      requires Valid()
      reads this
      ensures |r| <= limit
      ensures forall x :: x in r ==> x in rows && SearchHit(x, keyword)
      ensures |NewestHits(rows, keyword)| <= limit ==> forall x :: x in rows && SearchHit(x, keyword) ==> x in r
      ensures |NewestHits(rows, keyword)| > limit ==> |r| == limit
      ensures Decreasing(r)
      ensures forall x, y :: x in rows && SearchHit(x, keyword) && x !in r && y in r ==> x.id < y.id
    {
      var hits := NewestHits(rows, keyword);
      NewestHitsDecreasing(rows, keyword);
      if |hits| <= limit then hits
      else
        NewestPrefix(hits, limit);
        hits[..limit]
    }

    /** `delete_record`: only the row with that id goes; the id sequence is untouched. */
    method DeleteRecord(id: int)
      requires Valid()
      modifies this
      ensures Valid()
      ensures rows == Without(old(rows), id) && lastId == old(lastId)
    {
      WithoutKeepsOrder(rows, id);
      var r := Without(rows, id);
      forall i | 0 <= i < |r| ensures 1 <= r[i].id <= lastId {
        assert r[i] in rows;
      }
      rows := r;
    }

    /** `clear_all`: every row goes; `DELETE` does not reset the AUTOINCREMENT sequence. */
    method ClearAll()
      requires Valid()
      modifies this
      ensures Valid()
      ensures rows == [] && lastId == old(lastId)
    {
      rows := [];
    }

    /** `get_statistics`. */
    function GetStatistics(): (s: Stats)
      reads this
      ensures s.total == |rows| && s.success + s.failed == s.total && 0 <= s.failed
      ensures s.success == 0 ==> s.avgInferenceTime == 0.0 && s.totalDetections == 0
    {
      StatisticsConsistent(rows);
      SuccessCountBounded(rows);
      Statistics(rows)
    }
  }

  /** A row just added is found by its id. */
  lemma AddedRowFound(rows: seq<Row>, lastId: nat, data: RecordData, now: string)
    requires forall i :: 0 <= i < |rows| ==> rows[i].id <= lastId
    ensures Find(rows + [NewRow(lastId + 1, data, now)], lastId + 1) == Some(NewRow(lastId + 1, data, now))
  {
    FindAfterFresh(rows, NewRow(lastId + 1, data, now));
  }

  lemma {:induction false} FindAfterFresh(rows: seq<Row>, row: Row)
    requires forall i :: 0 <= i < |rows| ==> rows[i].id != row.id
    ensures Find(rows + [row], row.id) == Some(row)
  {
    if rows != [] {
      assert (rows + [row])[1..] == rows[1..] + [row];
      FindAfterFresh(rows[1..], row);
    }
  }
}
