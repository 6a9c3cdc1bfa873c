/** The `/api/records` routes as pure handlers over the `records` table: the
    paged history, saving a workout, and the per-device totals. The
    generated id and the completion time are parameters. */
module RecordRoutes {
  import opened Decimal
  import opened Js
  import opened Optional
  import opened Ordering

  /** A row of the `records` table. Body values are stored as posted. */
  datatype Record = Record(
    id: string,
    deviceId: string,
    templateId: JsValue,
    templateName: JsValue,
    workDuration: JsValue,
    restDuration: JsValue,
    rounds: JsValue,
    sets: JsValue,
    completedRounds: JsValue,
    completedSets: JsValue,
    totalTime: JsValue,
    completedAt: string)

  /** The JSON body of a save request; an absent key is `Undefined`. */
  datatype SaveBody = SaveBody(
    templateId: JsValue,
    templateName: JsValue,
    workDuration: JsValue,
    restDuration: JsValue,
    rounds: JsValue,
    sets: JsValue,
    completedRounds: JsValue,
    completedSets: JsValue,
    totalTime: JsValue)

  /** The `limit` and `offset` query parameters, when given. */
  datatype Query = Query(limit: Option<string>, offset: Option<string>)

  /** The three totals the stats route reports. */
  datatype Stats = Stats(totalWorkouts: int, totalTime: int, totalRounds: int)

  datatype Body =
    | ErrorBody(error: string)
    | Page(records: seq<Record>, total: int, limit: int, offset: int)
    | Saved(record: Record)
    | Totals(stats: Stats)

  datatype Reply = Reply(status: int, body: Body, table: seq<Record>)

  const DeviceRequired := "Device ID is required"
  const MissingFields := "Missing required fields"
  /** The application's error handler answers a statement that throws. */
  const InternalError := "Internal server error"

  const DefaultLimit := 50
  const DefaultOffset := 0

  function CompletedAt(r: Record): string {
    r.completedAt
  }

  function OwnedBy(d: string): Record -> bool {
    (r: Record) => r.deviceId == d
  }

  predicate IdTaken(id: string, table: seq<Record>) {
    exists k :: 0 <= k < |table| && table[k].id == id
  }

  /** `parseInt(param) || default` for the paging parameters. */
  function PageParam(v: Option<string>, d: int): (r: int)
    ensures v.None? ==> r == d
    ensures r != d ==> v.Some? && ParseInt(v.value) == Int(r) && r != 0
    ensures v.Some? && ParseInt(v.value).Int? && ParseInt(v.value).value != 0 ==> r == ParseInt(v.value).value
  {
    OrDefault(ParseParam(v), d)
  }

  /** The caller's records, latest first:
      `WHERE device_id = ? ORDER BY completed_at DESC`. */
  function Newest(d: string, table: seq<Record>): (r: seq<Record>)
    ensures multiset(r) == multiset(Filter(table, OwnedBy(d)))
    ensures |r| == |Filter(table, OwnedBy(d))|
  {
    SortDesc(Filter(table, OwnedBy(d)), CompletedAt)
  }

  /** The caller's records, latest first, cut to the page: the rows of
      `Newest` from the offset on (0 when negative), `limit` of them or all
      when the limit is negative. */
  function OwnPage(d: string, limit: int, offset: int, table: seq<Record>): (w: seq<Record>)
    ensures limit >= 0 ==> |w| <= limit
    ensures forall k :: 0 <= k < |w| ==> w[k] in table && w[k].deviceId == d
    ensures var all := Newest(d, table);
      var start := if offset < 0 then 0 else if offset > |all| then |all| else offset;
      |w| == (if limit < 0 || start + limit > |all| then |all| - start else limit)
      && forall k :: 0 <= k < |w| ==> w[k] == all[start + k]
  {
    PageRows(d, limit, offset, table);
    Window(Newest(d, table), limit, offset)
  }

  /** The two queries of `GET /` once the paging numbers are read: the
      caller's records, latest first, cut to the page, and the caller's
      full count; `limit` and `offset` are echoed. */
  function Listing(d: string, limit: int, offset: int, table: seq<Record>): (b: Body)
    ensures b.Page? && b.limit == limit && b.offset == offset
    ensures b.total == |Filter(table, OwnedBy(d))|
    ensures limit >= 0 ==> |b.records| <= limit
    ensures forall k :: 0 <= k < |b.records| ==> b.records[k] in table && b.records[k].deviceId == d
    ensures b.records == Window(Newest(d, table), limit, offset)
  {
    Page(OwnPage(d, limit, offset, table), |Filter(table, OwnedBy(d))|, limit, offset)
  }

  /** `GET /`: the device check, then the paging parameters read with
      `parseInt(…) || default`. */
  function List(device: Option<string>, q: Query, table: seq<Record>): (r: Reply)
    ensures r.table == table
    ensures r.status == 400 <==> !TruthyHeader(device)
    ensures r.status == 400 ==> r.body == ErrorBody(DeviceRequired)
    ensures r.status != 400 ==>
      r.status == 200
      && r.body == Listing(device.value, PageParam(q.limit, DefaultLimit), PageParam(q.offset, DefaultOffset), table)
  {
    if !TruthyHeader(device) then Reply(400, ErrorBody(DeviceRequired), table)
    else Reply(200, Listing(device.value, PageParam(q.limit, DefaultLimit), PageParam(q.offset, DefaultOffset), table), table)
  }

  /** Every page lists the latest completions first. */
  lemma ListedLatestFirst(d: string, limit: int, offset: int, table: seq<Record>)
    ensures SortedDesc(Listing(d, limit, offset, table).records, CompletedAt)
  {
    WindowKeepsSorted(SortDesc(Filter(table, OwnedBy(d)), CompletedAt), limit, offset);
  }

  /** A page of a sorted list is sorted. */
  lemma WindowKeepsSorted(xs: seq<Record>, limit: int, offset: int)
    requires SortedDesc(xs, CompletedAt)
    ensures SortedDesc(Window(xs, limit, offset), CompletedAt)
  {
  }

  /** A page holds only the device's own rows of the table. */
  lemma PageRows(d: string, limit: int, offset: int, table: seq<Record>)
    ensures forall k :: 0 <= k < |Window(SortDesc(Filter(table, OwnedBy(d)), CompletedAt), limit, offset)| ==>
      Window(SortDesc(Filter(table, OwnedBy(d)), CompletedAt), limit, offset)[k] in table
      && Window(SortDesc(Filter(table, OwnedBy(d)), CompletedAt), limit, offset)[k].deviceId == d
  {
    var own := Filter(table, OwnedBy(d));
    var sorted := SortDesc(own, CompletedAt);
    var w := Window(sorted, limit, offset);
    SameRows(sorted, own);
    WindowRows(sorted, limit, offset);
    forall k | 0 <= k < |w|
      ensures w[k] in table && w[k].deviceId == d
    {
      assert w[k] in sorted;
      var i :| 0 <= i < |sorted| && sorted[i] == w[k];
      var j :| 0 <= j < |own| && own[j] == w[k];
      assert own[j] in table && OwnedBy(d)(own[j]);
    }
  }

  /** The defaults: a missing, unreadable or zero parameter gives 50 rows
      from offset 0, and a readable non-zero number is taken as it is. */
  lemma PageParamDefaults(n: int)
    ensures PageParam(None, DefaultLimit) == 50 && PageParam(None, DefaultOffset) == 0
    ensures PageParam(Some("0"), DefaultLimit) == 50
    ensures PageParam(Some("all"), DefaultLimit) == 50
    ensures n != 0 ==> PageParam(Some(IntToString(n)), DefaultLimit) == n
  {
    ParseIntOfZero();
    ParseIntOfWord();
    ParseIntOfIntToString(n);
  }

  lemma ParseIntOfZero()
    ensures ParseInt("0") == Int(0)
  {
    assert AllDigits("0") && DigitsValue("0") == 0;
  }

  /** A word such as `all` has no digits and reads as NaN. */
  lemma ParseIntOfWord()
    ensures ParseInt("all") == NaN
  {
    assert TrimStart("all") == "all" by {
      assert !IsSpace('a');
    }
    assert DigitPrefix("all") == "" by {
      assert !IsDigit('a');
    }
  }

  /** A number written in the query is read back as itself; for the offset,
      whose default is 0, that holds for zero too. */
  lemma PageParamOfNumber(n: int, d: int)
    ensures n != 0 ==> PageParam(Some(IntToString(n)), d) == n
    ensures PageParam(Some(IntToString(n)), DefaultOffset) == n
  {
    ParseIntOfIntToString(n);
  }

  /** A negative limit is passed on to SQLite, which then returns every
      row of the caller. */
  lemma NegativeLimitListsAll(d: string, n: int, table: seq<Record>)
    requires d != "" && n < 0
    ensures
      var r := List(Some(d), Query(Some(IntToString(n)), None), table);
      r.status == 200 && |r.body.records| == r.body.total
      && r.body.records == Newest(d, table)
      && (forall k :: 0 <= k < |table| && table[k].deviceId == d ==> table[k] in r.body.records)
      && (forall k :: 0 <= k < |r.body.records| ==> r.body.records[k] in table && r.body.records[k].deviceId == d)
  {
    NegativeLimitReachesListing(d, n, table);
    UnlimitedPageIsAll(d, n, table);
  }

  /** The query string `limit=<n>` reaches the listing as the number `n`. */
  lemma NegativeLimitReachesListing(d: string, n: int, table: seq<Record>)
    requires d != "" && n < 0
    ensures List(Some(d), Query(Some(IntToString(n)), None), table).status == 200
    ensures List(Some(d), Query(Some(IntToString(n)), None), table).body == Listing(d, n, 0, table)
  {
    PageParamOfNumber(n, DefaultLimit);
    PageParamDefaults(0);
  }

  /** The page asked for with no limit holds every row of the device, newest
      first, and nothing else. */
  lemma UnlimitedPageIsAll(d: string, n: int, table: seq<Record>)
    requires n < 0
    ensures var b := Listing(d, n, 0, table);
      |b.records| == b.total
      && b.records == Newest(d, table)
      && (forall k :: 0 <= k < |table| && table[k].deviceId == d ==> table[k] in b.records)
      && (forall k :: 0 <= k < |b.records| ==> b.records[k] in table && b.records[k].deviceId == d)
  {
    UnlimitedListing(d, n, table);
    SameRows(Newest(d, table), Filter(table, OwnedBy(d)));
  }

  /** Without a limit, the first page is every row of the device, newest first. */
  lemma UnlimitedListing(d: string, n: int, table: seq<Record>)
    requires n < 0
    ensures Listing(d, n, 0, table).records == Newest(d, table)
    ensures |Listing(d, n, 0, table).records| == Listing(d, n, 0, table).total
  {
    WindowAll(Newest(d, table), n);
  }

  /** Consecutive pages, read one after the other, give the same rows as one
      page as long as both: `a` rows at `offset` and then `b` rows at
      `offset + a` are the `a + b` rows at `offset`. */
  lemma ConsecutivePagesTile(d: string, a: nat, b: nat, offset: nat, table: seq<Record>)
    ensures Listing(d, a, offset, table).records + Listing(d, b, offset + a, table).records
            == Listing(d, a + b, offset, table).records
  {
    PagesTile(SortDesc(Filter(table, OwnedBy(d)), CompletedAt), a, b, offset);
  }

  /** The fields a save insists on: a truthy template name, and every other
      numeric field present, zero allowed. */
  predicate RequiredPresent(b: SaveBody) {
    Truthy(b.templateName)
    && b.workDuration != Undefined && b.restDuration != Undefined && b.rounds != Undefined
    && b.completedRounds != Undefined && b.completedSets != Undefined && b.totalTime != Undefined
  }

  /** The `NOT NULL` columns that a present value can still violate. */
  predicate NotNullHolds(b: SaveBody) {
    b.workDuration != Null && b.restDuration != Null && b.rounds != Null
    && b.completedRounds != Null && b.completedSets != Null && b.totalTime != Null
  }

  /** The row a successful save stores and sends back. */
  predicate StoredAs(r: Record, d: string, b: SaveBody, id: string, now: string) {
    r.id == id && r.deviceId == d && r.completedAt == now
    && r.templateId == (if Truthy(b.templateId) then b.templateId else Null)
    && r.templateName == b.templateName
    && r.workDuration == b.workDuration && r.restDuration == b.restDuration
    && r.rounds == b.rounds && r.sets == (if b.sets == Undefined then Num(1) else b.sets)
    && r.completedRounds == b.completedRounds && r.completedSets == b.completedSets
    && r.totalTime == b.totalTime
  }

  /** `POST /`, with the generated id and the ISO time given. A `null` in a
      `NOT NULL` column, or a clash with an existing id, makes the insert
      throw and the error handler answer 500. */
  function Save(device: Option<string>, b: SaveBody, id: string, now: string, table: seq<Record>): (r: Reply)
    ensures r.status in {400, 500, 201}
    ensures r.status != 201 ==> r.table == table
    ensures r.status == 400 <==> !TruthyHeader(device) || !RequiredPresent(b)
    ensures r.status == 500 <==>
      TruthyHeader(device) && RequiredPresent(b) && (!NotNullHolds(b) || IdTaken(id, table))
    ensures r.status == 201 ==>
      r.body.Saved? && r.table == table + [r.body.record]
      && StoredAs(r.body.record, device.value, b, id, now)
  {
    if !TruthyHeader(device) then Reply(400, ErrorBody(DeviceRequired), table)
    else if !RequiredPresent(b) then Reply(400, ErrorBody(MissingFields), table)
    else if !NotNullHolds(b) || IdTaken(id, table) then Reply(500, ErrorBody(InternalError), table)
    else
      var rec := Record(
        id, device.value,
        if Truthy(b.templateId) then b.templateId else Null,
        b.templateName, b.workDuration, b.restDuration, b.rounds,
        if b.sets == Undefined then Num(1) else b.sets,
        b.completedRounds, b.completedSets, b.totalTime, now);
      Reply(201, Saved(rec), table + [rec])
  }

  /** The number SQLite adds up for a stored value: booleans are bound as
      1 and 0, and `NULL` adds nothing. */
  function SqlNumber(v: JsValue): int {
    match v
    case Num(n) => n
    case Bool(b) => if b then 1 else 0
    case _ => 0
  }

  /** `COALESCE(SUM(column), 0)` over some rows: nothing adds up to 0, and
      one row adds up to its own value. */
  function Sum(rows: seq<Record>, column: Record -> JsValue): (r: int)
    ensures |rows| == 0 ==> r == 0
    ensures |rows| == 1 ==> r == SqlNumber(column(rows[0]))
  {
    if |rows| == 0 then 0 else Sum(rows[..|rows| - 1], column) + SqlNumber(column(rows[|rows| - 1]))
  }

  /** A sum of values none of which is negative is not negative. */
  lemma {:induction false} SumOfNonNegative(rows: seq<Record>, column: Record -> JsValue)
    requires forall k :: 0 <= k < |rows| ==> SqlNumber(column(rows[k])) >= 0
    ensures Sum(rows, column) >= 0
  {
    if |rows| > 0 {
      var front := rows[..|rows| - 1];
      assert forall k :: 0 <= k < |front| ==> front[k] == rows[k];
      SumOfNonNegative(front, column);
    }
  }

  /** `SUM` does not depend on how the rows are split: the sum over two runs
      of rows is the sum of their sums. */
  lemma {:induction false} SumAppend(a: seq<Record>, b: seq<Record>, column: Record -> JsValue)
    ensures Sum(a + b, column) == Sum(a, column) + Sum(b, column)
    decreases |b|
  {
    if |b| > 0 {
      var b' := b[..|b| - 1];
      assert (a + b)[..|a + b| - 1] == a + b';
      SumAppend(a, b', column);
    } else {
      assert a + b == a;
    }
  }

  function TotalTimeOf(r: Record): JsValue {
    r.totalTime
  }

  function CompletedRoundsOf(r: Record): JsValue {
    r.completedRounds
  }

  /** `GET /stats`: count and sums over the caller's rows only. */
  function StatsOf(device: Option<string>, table: seq<Record>): (r: Reply)
    ensures r.table == table
    ensures r.status == 400 <==> !TruthyHeader(device)
    ensures r.status == 400 ==> r.body == ErrorBody(DeviceRequired)
    ensures r.status != 400 ==> r.status == 200 && r.body.Totals?
    ensures r.status == 200 ==>
      var own := Filter(table, OwnedBy(device.value));
      r.body.stats.totalWorkouts == |own|
      && (|own| == 0 ==> r.body.stats == Stats(0, 0, 0))
  {
    if !TruthyHeader(device) then Reply(400, ErrorBody(DeviceRequired), table)
    else
      var own := Filter(table, OwnedBy(device.value));
      Reply(200, Totals(Stats(|own|, Sum(own, TotalTimeOf), Sum(own, CompletedRoundsOf))), table)
  }

  /** The listing's total and the stats' workout count always agree. */
  lemma TotalMatchesStats(d: string, q: Query, table: seq<Record>)
    requires d != ""
    ensures List(Some(d), q, table).body.total == StatsOf(Some(d), table).body.stats.totalWorkouts
  {
  }

  /** A save adds one workout, its time and its completed rounds to the
      saving device's totals. */
  lemma SaveAddsToStats(d: string, b: SaveBody, id: string, now: string, table: seq<Record>)
    requires Save(Some(d), b, id, now, table).status == 201
    ensures
      var before := StatsOf(Some(d), table).body.stats;
      var after := StatsOf(Some(d), Save(Some(d), b, id, now, table).table).body.stats;
      after == Stats(before.totalWorkouts + 1,
                     before.totalTime + SqlNumber(b.totalTime),
                     before.totalRounds + SqlNumber(b.completedRounds))
  {
    var rec := Save(Some(d), b, id, now, table).body.record;
    StatsOfAppended(d, table, rec);
  }

  /** The totals of a device after one of its rows is appended. */
  lemma StatsOfAppended(d: string, table: seq<Record>, rec: Record)
    requires d != "" && rec.deviceId == d
    ensures
      var before := StatsOf(Some(d), table).body.stats;
      StatsOf(Some(d), table + [rec]).body.stats
        == Stats(before.totalWorkouts + 1,
                 before.totalTime + SqlNumber(rec.totalTime),
                 before.totalRounds + SqlNumber(rec.completedRounds))
  {
    var own := Filter(table, OwnedBy(d));
    assert Filter(table + [rec], OwnedBy(d)) == own + [rec] by {
      FilterAppend(table, rec, OwnedBy(d));
    }
    assert Sum(own + [rec], TotalTimeOf) == Sum(own, TotalTimeOf) + SqlNumber(rec.totalTime) by {
      SumAppend(own, [rec], TotalTimeOf);
      assert [rec][..0] == [];
    }
    assert Sum(own + [rec], CompletedRoundsOf) == Sum(own, CompletedRoundsOf) + SqlNumber(rec.completedRounds) by {
      SumAppend(own, [rec], CompletedRoundsOf);
      assert [rec][..0] == [];
    }
  }

  /** Saving for one device changes neither the listing nor the totals of
      another. */
  lemma SaveLeavesOtherDevices(d: string, e: string, q: Query, b: SaveBody, id: string, now: string, table: seq<Record>)
    requires d != e
    ensures
      var t' := Save(Some(d), b, id, now, table).table;
      List(Some(e), q, t').body == List(Some(e), q, table).body
      && StatsOf(Some(e), t').body == StatsOf(Some(e), table).body
  {
    var r := Save(Some(d), b, id, now, table);
    if r.status == 201 {
      FilterAppend(table, r.body.record, OwnedBy(e));
      assert Filter(r.table, OwnedBy(e)) == Filter(table, OwnedBy(e));
    }
  }

  /** A saved workout is on the first page of its device's listing when it
      completed later than every stored one of that device. */
  lemma SavedIsListedFirst(d: string, b: SaveBody, id: string, now: string, table: seq<Record>)
    requires Save(Some(d), b, id, now, table).status == 201
    requires forall k :: 0 <= k < |table| && table[k].deviceId == d ==> !LexLe(now, table[k].completedAt)
    ensures
      var r := Save(Some(d), b, id, now, table);
      var page := List(Some(d), Query(None, None), r.table).body.records;
      |page| > 0 && page[0] == r.body.record
  {
    var r := Save(Some(d), b, id, now, table);
    var rec := r.body.record;
    var own := Filter(r.table, OwnedBy(d));
    var sorted := SortDesc(own, CompletedAt);
    assert List(Some(d), Query(None, None), r.table).body == Listing(d, 50, 0, r.table) by {
      PageParamDefaults(0);
    }
    assert |sorted| > 0 && sorted[0] == rec by {
      FilterAppend(table, rec, OwnedBy(d));
      assert own == Filter(table, OwnedBy(d)) + [rec];
      forall y | y in own && y != rec
        ensures !LexLe(CompletedAt(rec), CompletedAt(y))
      {
        var k :| 0 <= k < |own| && own[k] == y;
        assert k < |own| - 1;
        assert y in Filter(table, OwnedBy(d));
      }
      GreatestComesFirst(own, CompletedAt, rec);
    }
    assert Window(sorted, 50, 0)[0] == sorted[0];
  }

  /** Zero values are accepted: a workout abandoned before any round ends is
      still saved. */
  lemma ZeroRoundsAreSaved(d: string, b: SaveBody, id: string, now: string, table: seq<Record>)
    requires b.templateName == Str("Tabata") && b.workDuration == Num(20) && b.restDuration == Num(10)
    requires b.rounds == Num(8) && b.completedRounds == Num(0) && b.completedSets == Num(0)
    requires b.totalTime == Num(0) && d != "" && !IdTaken(id, table)
    ensures Save(Some(d), b, id, now, table).status == 201
  {
  }
}
