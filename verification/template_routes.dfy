/** The `/api/templates` routes as pure handlers: each takes the request and
    the `templates` table and gives back a status, a JSON body and the table
    afterwards. The generated id and the creation time are parameters. */
module TemplateRoutes {
  import opened Js
  import opened Optional
  import opened Ordering

  /** A row of the `templates` table. Body values are stored as posted. */
  datatype Template = Template(
    id: string,
    deviceId: string,
    name: JsValue,
    workDuration: JsValue,
    restDuration: JsValue,
    rounds: JsValue,
    sets: JsValue,
    setRestDuration: JsValue,
    createdAt: string)

  /** The JSON body of a create request; an absent key is `Undefined`. */
  datatype CreateBody = CreateBody(
    name: JsValue,
    workDuration: JsValue,
    restDuration: JsValue,
    rounds: JsValue,
    sets: JsValue,
    setRestDuration: JsValue)

  datatype Body = ErrorBody(error: string) | TemplateList(items: seq<Template>) | Created(template: Template) | NoContent

  datatype Reply = Reply(status: int, body: Body, table: seq<Template>)

  const DeviceRequired := "Device ID is required"
  const MissingFields := "Missing required fields"
  const NotFound := "Template not found"
  /** The application's error handler answers a statement that throws. */
  const InternalError := "Internal server error"

  function CreatedAt(t: Template): string {
    t.createdAt
  }

  function OwnedBy(d: string): Template -> bool {
    (t: Template) => t.deviceId == d
  }

  /** The rows a delete keeps: all but those with both the id and the device. */
  function Keeps(id: string, d: string): Template -> bool {
    (t: Template) => !(t.id == id && t.deviceId == d)
  }

  predicate IdTaken(id: string, table: seq<Template>) {
    exists k :: 0 <= k < |table| && table[k].id == id
  }

  /** `GET /`: the caller's templates, newest first. */
  function List(device: Option<string>, table: seq<Template>): (r: Reply)
    ensures r.table == table
    ensures r.status == 400 <==> !TruthyHeader(device)
    ensures r.status == 400 ==> r.body == ErrorBody(DeviceRequired)
    ensures r.status != 400 ==> r.status == 200 && r.body.TemplateList?
    ensures r.status == 200 ==>
      var items := r.body.items;
      SortedDesc(items, CreatedAt)
      && multiset(items) == multiset(Filter(table, OwnedBy(device.value)))
      && (forall k :: 0 <= k < |items| ==> items[k] in table && items[k].deviceId == device.value)
      && (forall k :: 0 <= k < |table| && table[k].deviceId == device.value ==> table[k] in items)
  {
    if !TruthyHeader(device) then Reply(400, ErrorBody(DeviceRequired), table)
    else
      var own := Filter(table, OwnedBy(device.value));
      var items := SortDesc(own, CreatedAt);
      SameRows(items, own);
      Reply(200, TemplateList(items), table)
  }

  /** The destructuring defaults apply to absent keys only. */
  function DefaultIfAbsent(v: JsValue, d: int): (r: JsValue)
    ensures v != Undefined ==> r == v
    ensures v == Undefined ==> r == Num(d)
  {
    if v == Undefined then Num(d) else v
  }

  /** The fields the create route insists on, by truthiness. */
  predicate RequiredPresent(b: CreateBody) {
    Truthy(b.name) && Truthy(b.workDuration) && Truthy(b.restDuration) && Truthy(b.rounds)
  }

  /** The row a successful create stores and sends back. */
  predicate StoredAs(t: Template, d: string, b: CreateBody, id: string, now: string) {
    t.id == id && t.deviceId == d && t.createdAt == now
    && t.name == b.name && t.workDuration == b.workDuration
    && t.restDuration == b.restDuration && t.rounds == b.rounds
    && t.sets == (if b.sets == Undefined then Num(1) else b.sets)
    && t.setRestDuration == (if b.setRestDuration == Undefined then Num(60) else b.setRestDuration)
  }

  /** `POST /`, with the generated id and the ISO time given. A clash with an
      existing id breaks the primary key, the insert throws and the error
      handler answers 500. */
  function Create(device: Option<string>, b: CreateBody, id: string, now: string, table: seq<Template>): (r: Reply)
    ensures r.status in {400, 500, 201}
    ensures r.status != 201 ==> r.table == table
    ensures r.status == 400 <==> !TruthyHeader(device) || !RequiredPresent(b)
    ensures r.status == 500 <==> TruthyHeader(device) && RequiredPresent(b) && IdTaken(id, table)
    ensures r.status == 201 ==>
      r.body.Created? && r.table == table + [r.body.template]
      && StoredAs(r.body.template, device.value, b, id, now)
  {
    if !TruthyHeader(device) then Reply(400, ErrorBody(DeviceRequired), table)
    else if !RequiredPresent(b) then Reply(400, ErrorBody(MissingFields), table)
    else if IdTaken(id, table) then Reply(500, ErrorBody(InternalError), table)
    else
      var t := Template(
        id, device.value, b.name, b.workDuration, b.restDuration, b.rounds,
        DefaultIfAbsent(b.sets, 1), DefaultIfAbsent(b.setRestDuration, 60), now);
      Reply(201, Created(t), table + [t])
  }

  /** `DELETE /:id`: only a row with both the id and the caller's device is
      found and removed. */
  function Delete(device: Option<string>, id: string, table: seq<Template>): (r: Reply)
    ensures r.status in {400, 404, 204}
    ensures r.status == 400 <==> !TruthyHeader(device)
    ensures r.status == 404 <==>
      TruthyHeader(device) && forall k :: 0 <= k < |table| ==> !(table[k].id == id && table[k].deviceId == device.value)
    ensures r.status != 204 ==> r.table == table
    ensures r.status == 204 ==>
      r.body == NoContent && |r.table| < |table|
      && (forall k :: 0 <= k < |r.table| ==> r.table[k] in table && !(r.table[k].id == id && r.table[k].deviceId == device.value))
      && (forall k :: 0 <= k < |table| && !(table[k].id == id && table[k].deviceId == device.value) ==> table[k] in r.table)
  {
    if !TruthyHeader(device) then Reply(400, ErrorBody(DeviceRequired), table)
    else if forall k :: 0 <= k < |table| ==> !(table[k].id == id && table[k].deviceId == device.value) then
      Reply(404, ErrorBody(NotFound), table)
    else
      var k :| 0 <= k < |table| && table[k].id == id && table[k].deviceId == device.value;
      FilterDropsRow(table, Keeps(id, device.value), k);
      Reply(204, NoContent, Filter(table, Keeps(id, device.value)))
  }

  /** A template created for a device is in that device's next list. */
  lemma CreatedIsListed(d: string, b: CreateBody, id: string, now: string, table: seq<Template>)
    requires Create(Some(d), b, id, now, table).status == 201
    ensures
      var r := Create(Some(d), b, id, now, table);
      var l := List(Some(d), r.table);
      l.status == 200 && r.body.template in l.body.items
  {
    var r := Create(Some(d), b, id, now, table);
    assert r.table[|table|] == r.body.template;
  }

  /** When the creation time is later than every stored time of the device,
      the new template heads that device's list. */
  lemma CreatedIsListedFirst(d: string, b: CreateBody, id: string, now: string, table: seq<Template>)
    requires Create(Some(d), b, id, now, table).status == 201
    requires forall k :: 0 <= k < |table| && table[k].deviceId == d ==> !LexLe(now, table[k].createdAt)
    ensures
      var r := Create(Some(d), b, id, now, table);
      var items := List(Some(d), r.table).body.items;
      |items| > 0 && items[0] == r.body.template
  {
    var r := Create(Some(d), b, id, now, table);
    var t := r.body.template;
    FilterAppend(table, t, OwnedBy(d));
    var own := Filter(r.table, OwnedBy(d));
    assert own == Filter(table, OwnedBy(d)) + [t];
    forall y | y in own && y != t
      ensures !LexLe(CreatedAt(t), CreatedAt(y))
    {
      var k :| 0 <= k < |own| && own[k] == y;
      assert k < |own| - 1;
      assert y in Filter(table, OwnedBy(d));
    }
    GreatestComesFirst(own, CreatedAt, t);
  }

  /** Deleting what was just created gives back the table as it was. */
  lemma CreateThenDeleteRestores(d: string, b: CreateBody, id: string, now: string, table: seq<Template>)
    requires Create(Some(d), b, id, now, table).status == 201
    ensures
      var r := Create(Some(d), b, id, now, table);
      Delete(Some(d), id, r.table) == Reply(204, NoContent, table)
  {
    var r := Create(Some(d), b, id, now, table);
    var t := r.body.template;
    assert r.table[|table|] == t;
    FilterAppend(table, t, Keeps(id, d));
    FilterKeepsAll(table, Keeps(id, d));
  }

  /** Creating for one device never changes what another device lists. */
  lemma CreateLeavesOtherDevices(d: string, e: string, b: CreateBody, id: string, now: string, table: seq<Template>)
    requires d != e
    ensures List(Some(e), Create(Some(d), b, id, now, table).table).body == List(Some(e), table).body
  {
    var c := Create(Some(d), b, id, now, table);
    if c.status == 201 {
      FilterAppend(table, c.body.template, OwnedBy(e));
      assert Filter(c.table, OwnedBy(e)) == Filter(table, OwnedBy(e));
    }
  }

  /** Deleting for one device never changes what another device lists. */
  lemma DeleteLeavesOtherDevices(d: string, e: string, id: string, table: seq<Template>)
    requires d != e
    ensures List(Some(e), Delete(Some(d), id, table).table).body == List(Some(e), table).body
  {
    var del := Delete(Some(d), id, table);
    if del.status == 204 {
      FilterOfFilter(table, Keeps(id, d), OwnedBy(e));
      assert Filter(del.table, OwnedBy(e)) == Filter(table, OwnedBy(e));
    }
  }

  /** A rest of 0 seconds counts as missing, so such a template cannot be saved. */
  lemma ZeroRestIsRejected(d: string, b: CreateBody, id: string, now: string, table: seq<Template>)
    requires b.restDuration == Num(0)
    ensures Create(Some(d), b, id, now, table).status == 400
    ensures Create(Some(d), b, id, now, table).table == table
  {
  }
}
