/**
 * The record gateway shared by the five entity services: the payload each
 * service builds before calling the record SDK, and the way it reads the
 * SDK's reply afterwards. One entity is described by an `Entity` value
 * (table name, noun used in error messages, writable fields, requested
 * fields); the five concrete entities live in module `Entities`.
 */
module RecordGateway {
  import opened Wrappers
  import opened JsValue

  /** A record payload: field name to value. */
  type Record = map<string, Value>

  /** One `[field, value]` pair of a filter object, in enumeration order. */
  type Entry = (string, Value)

  /**
   * What distinguishes one entity service from another: the table it
   * talks to, the noun in its default error messages, its writable
   * fields (`UPDATEABLE_FIELDS`) and the fields it asks for when fetching.
   */
  datatype Entity = Entity(table: string, noun: string, updateable: seq<string>, fields: seq<string>)

  /** Fields the record store manages itself. */
  const SystemFields: set<string> := {"Id", "CreatedOn", "CreatedBy", "ModifiedOn", "ModifiedBy"}

  /** The writable fields as a set. */
  function AllowSet(e: Entity): set<string> {
    set k | k in e.updateable
  }

  /**
   * An entity description is sound when no system field is writable, every
   * writable field is also fetched, and the record identifier is fetched.
   */
  predicate WellFormed(e: Entity) {
    && (forall i :: 0 <= i < |e.updateable| ==> e.updateable[i] !in SystemFields)
    && (forall i :: 0 <= i < |e.updateable| ==> e.updateable[i] in e.fields)
    && "Id" in e.fields
  }

  // ---------------------------------------------------------------------
  // Outbound payloads
  // ---------------------------------------------------------------------

  /**
   * `Object.fromEntries(Object.entries(data).filter(([key]) =>
   * UPDATEABLE_FIELDS.includes(key)))`: the input cut down to writable fields.
   */
  function Writable(e: Entity, data: Record): (r: Record)
    ensures r.Keys == data.Keys * AllowSet(e)
    ensures forall k :: k in r ==> r[k] == data[k]
  {
    map k | k in data && k in e.updateable :: data[k]
  }

  /** Filtering an already filtered record leaves it unchanged. */
  lemma WritableIdempotent(e: Entity, data: Record)
    ensures Writable(e, Writable(e, data)) == Writable(e, data)
  {
  }

  /** A record is left unchanged by filtering exactly when all its keys are writable. */
  lemma WritableFixedPoints(e: Entity, data: Record)
    ensures Writable(e, data) == data <==> data.Keys <= AllowSet(e)
  {
    if data.Keys <= AllowSet(e) {
      assert Writable(e, data).Keys == data.Keys;
    }
  }

  /** A filtered record never has more keys than there are writable fields. */
  lemma WritableSize(e: Entity, data: Record)
    ensures |Writable(e, data)| <= |AllowSet(e)|
  {
    SubsetSize(Writable(e, data).Keys, AllowSet(e));
  }

  lemma SubsetSize<T>(a: set<T>, b: set<T>)
    requires a <= b
    ensures |a| <= |b|
  {
    assert b == a + (b - a);
  }

  /** No system-managed field survives the filter of a sound entity. */
  lemma WritableExcludesSystemFields(e: Entity, data: Record)
    requires WellFormed(e)
    ensures Writable(e, data).Keys !! SystemFields
  {
  }

  /** A `createRecord`/`updateRecord` call: the table and the `{ records: [...] }` argument. */
  datatype WriteCall = WriteCall(table: string, records: seq<Record>)

  /** A `deleteRecord` call: the table and the `{ RecordIds: [...] }` argument. */
  datatype DeleteCall = DeleteCall(table: string, recordIds: seq<Value>)

  /** The create payload: one record holding exactly the writable fields of the input. */
  function CreateRequest(e: Entity, data: Record): (p: WriteCall)
    ensures p.table == e.table
    ensures |p.records| == 1
    ensures p.records[0].Keys == data.Keys * AllowSet(e)
    ensures forall k :: k in p.records[0] ==> p.records[0][k] == data[k]
  {
    WriteCall(e.table, [Writable(e, data)])
  }

  /**
   * The update payload: the writable fields of the input plus `Id` set to
   * the identifier argument. Whatever `Id` the input carried is not forwarded.
   */
  function UpdateRequest(e: Entity, id: Value, data: Record): (p: WriteCall)
    ensures p.table == e.table
    ensures |p.records| == 1
    ensures p.records[0].Keys == data.Keys * AllowSet(e) + {"Id"}
    ensures p.records[0]["Id"] == id
    ensures forall k :: k in p.records[0] && k != "Id" ==> p.records[0][k] == data[k]
  {
    WriteCall(e.table, [Writable(e, data)["Id" := id]])
  }

  /** Removing `Id` from an update payload gives back the create payload of the same input. */
  lemma UpdateIsCreatePlusId(e: Entity, id: Value, data: Record)
    requires WellFormed(e)
    ensures UpdateRequest(e, id, data).records[0] - {"Id"} == CreateRequest(e, data).records[0]
    ensures Writable(e, UpdateRequest(e, id, data).records[0]) == CreateRequest(e, data).records[0]
  {
    assert "Id" !in AllowSet(e);
  }

  /** The update payload depends only on the writable part of the input, never on its `Id`. */
  lemma UpdateIgnoresInputId(e: Entity, id: Value, data: Record, other: Value)
    requires WellFormed(e)
    ensures UpdateRequest(e, id, data["Id" := other]) == UpdateRequest(e, id, data)
  {
    assert "Id" !in AllowSet(e);
    assert Writable(e, data["Id" := other]) == Writable(e, data);
  }

  /** Neither payload ever carries a system field other than the injected `Id`. */
  lemma PayloadsExcludeSystemFields(e: Entity, id: Value, data: Record)
    requires WellFormed(e)
    ensures CreateRequest(e, data).records[0].Keys !! SystemFields
    ensures UpdateRequest(e, id, data).records[0].Keys * SystemFields == {"Id"}
  {
    WritableExcludesSystemFields(e, data);
  }

  /** The delete payload: the single identifier to remove. */
  function DeleteRequest(e: Entity, id: Value): (p: DeleteCall)
    ensures p.table == e.table
    ensures p.recordIds == [id]
  {
    DeleteCall(e.table, [id])
  }

  // ---------------------------------------------------------------------
  // Fetch query
  // ---------------------------------------------------------------------

  /** One `{ fieldName, operator, values }` condition of a where group. */
  datatype Condition = Condition(fieldName: string, operator: string, values: seq<Value>)

  /** One `{ operator, conditions }` where group. */
  datatype WhereGroup = WhereGroup(operator: string, conditions: seq<Condition>)

  /** A `fetchRecords` call: the table and the parameters; `whereGroups` is absent when `None`. */
  datatype FetchCall = FetchCall(table: string, fields: seq<string>, convertNullToUnknown: bool, whereGroups: Option<seq<WhereGroup>>)

  /** The condition that one filter entry turns into. */
  function ExactMatch(entry: Entry): Condition {
    Condition(entry.0, "ExactMatch", [entry.1])
  }

  /** The query for a filter object given by its entries. */
  function FetchRequest(e: Entity, filters: seq<Entry>): (p: FetchCall)
    ensures p.table == e.table && p.fields == e.fields && p.convertNullToUnknown
    ensures p.whereGroups.None? <==> |filters| == 0
    ensures p.whereGroups.Some? ==>
      && |p.whereGroups.value| == 1
      && p.whereGroups.value[0].operator == "AND"
      && |p.whereGroups.value[0].conditions| == |filters|
    ensures p.whereGroups.Some? ==>
      forall i :: 0 <= i < |filters| ==>
        var c := p.whereGroups.value[0].conditions[i];
        c.fieldName == filters[i].0 && c.operator == "ExactMatch" && c.values == [filters[i].1]
  {
    var whereGroups :=
      if |filters| > 0 then
        Some([WhereGroup("AND", seq(|filters|, i requires 0 <= i < |filters| => ExactMatch(filters[i])))])
      else
        None;
    FetchCall(e.table, e.fields, true, whereGroups)
  }

  /** Reads the filter entries back out of a query's single AND group. */
  function FiltersOf(p: FetchCall): seq<Entry> {
    match p.whereGroups
    case None => []
    case Some(groups) =>
      if |groups| == 0 then []
      else
        var cs := groups[0].conditions;
        seq(|cs|, i requires 0 <= i < |cs| => (cs[i].fieldName, if |cs[i].values| == 0 then Undefined else cs[i].values[0]))
  }

  /** The query loses nothing: every filter entry can be read back, in order. */
  lemma FetchRequestRoundTrip(e: Entity, filters: seq<Entry>)
    ensures FiltersOf(FetchRequest(e, filters)) == filters
  {
    var back := FiltersOf(FetchRequest(e, filters));
    assert |back| == |filters|;
    forall i | 0 <= i < |filters|
      ensures back[i] == filters[i]
    {
    }
  }

  /** A sound entity asks for every field it can write, and for `Id`. */
  lemma FetchRequestsWritableFields(e: Entity, filters: seq<Entry>)
    requires WellFormed(e)
    ensures "Id" in FetchRequest(e, filters).fields
    ensures forall k :: k in AllowSet(e) ==> k in FetchRequest(e, filters).fields
  {
  }

  // ---------------------------------------------------------------------
  // Interpreting the SDK reply
  // ---------------------------------------------------------------------

  /** The parts of an SDK response the services read. */
  datatype Response = Response(success: Value, message: Value, data: Value, results: seq<Value>)

  /** An SDK call either throws or returns a response. */
  datatype Reply = Threw(error: Value) | Returned(response: Response)

  /**
   * What a service call throws: the SDK's own error rethrown, an `Error`
   * built from the response message, or the `TypeError` of reading
   * `results[0].data` when there is no first result.
   */
  datatype ServiceError = Raised(error: Value) | Rejected(message: Value) | MissingResult

  /** The three write operations, for their default error messages. */
  datatype Verb = Create | Update | Delete

  function VerbName(v: Verb): string {
    match v
    case Create => "create"
    case Update => "update"
    case Delete => "delete"
  }

  /** `'Failed to <verb> <noun>'`. */
  function DefaultMessage(e: Entity, v: Verb): (m: string)
    ensures |m| > 10 + |e.noun| && m[..10] == "Failed to "
    ensures m[|m| - |e.noun|..] == e.noun
    ensures m[10..|m| - |e.noun| - 1] == VerbName(v) && m[|m| - |e.noun| - 1] == ' '
  {
    "Failed to " + VerbName(v) + " " + e.noun
  }

  /** `new Error(response.message || 'Failed to ...')`. */
  function Rejection(e: Entity, v: Verb, resp: Response): (f: ServiceError)
    ensures f.Rejected? && Truthy(f.message)
    ensures Truthy(resp.message) ==> f.message == resp.message
    ensures !Truthy(resp.message) ==> f.message == Str(DefaultMessage(e, v))
  {
    Rejected(Or(resp.message, Str(DefaultMessage(e, v))))
  }

  /** `response.data || []`: the fetched rows, or an empty list when there are none. */
  function FetchOutcome(reply: Reply): (r: Result<Value, ServiceError>)
    ensures reply.Threw? ==> r == Failure(Raised(reply.error))
    ensures reply.Returned? ==> r.Success? && Truthy(r.value)
    ensures reply.Returned? && Truthy(reply.response.data) ==> r.value == reply.response.data
    ensures reply.Returned? && !Truthy(reply.response.data) ==> r.value == Arr([])
  {
    match reply
    case Threw(err) => Failure(Raised(err))
    case Returned(resp) => Success(Or(resp.data, Arr([])))
  }

  /** `response.results[0].data`. */
  function FirstResultData(results: seq<Value>): (r: Result<Value, ServiceError>)
    ensures r.Failure? <==> |results| == 0 || results[0] == Undefined || results[0] == Null
    ensures r.Failure? ==> r.error == MissingResult
    ensures r.Success? && results[0].Obj? && "data" in results[0].props ==> r.value == results[0].props["data"]
    ensures r.Success? && !(results[0].Obj? && "data" in results[0].props) ==> r.value == Undefined
  {
    if |results| == 0 || results[0] == Undefined || results[0] == Null then Failure(MissingResult)
    else Success(Prop(results[0], "data"))
  }

  /**
   * The reply to a create or update: the first result's data on success;
   * the response message, or the default message, when the response
   * reports failure; the SDK's own error when it throws.
   */
  function WriteOutcome(e: Entity, v: Verb, reply: Reply): (r: Result<Value, ServiceError>)
    ensures reply.Threw? ==> r == Failure(Raised(reply.error))
    ensures reply.Returned? && !Truthy(reply.response.success) ==>
      r == Failure(Rejection(e, v, reply.response))
    ensures reply.Returned? && Truthy(reply.response.success) ==>
      r == FirstResultData(reply.response.results)
    ensures r.Success? ==> reply.Returned? && Truthy(reply.response.success)
  {
    match reply
    case Threw(err) => Failure(Raised(err))
    case Returned(resp) =>
      if !Truthy(resp.success) then Failure(Rejection(e, v, resp))
      else FirstResultData(resp.results)
  }

  /** The reply to a delete: `true` when the response reports success. */
  function DeleteOutcome(e: Entity, reply: Reply): (r: Result<bool, ServiceError>)
    ensures r.Success? <==> reply.Returned? && Truthy(reply.response.success)
    ensures r.Success? ==> r.value
    ensures reply.Threw? ==> r == Failure(Raised(reply.error))
    ensures reply.Returned? && !Truthy(reply.response.success) ==>
      r == Failure(Rejection(e, Delete, reply.response))
  {
    match reply
    case Threw(err) => Failure(Raised(err))
    case Returned(resp) =>
      if !Truthy(resp.success) then Failure(Rejection(e, Delete, resp)) else Success(true)
  }

  /** A rejected write always carries a truthy message, whatever the response said. */
  lemma RejectionNeverSilent(e: Entity, v: Verb, reply: Reply)
    requires reply.Returned? && !Truthy(reply.response.success)
    ensures WriteOutcome(e, v, reply).Failure?
    ensures WriteOutcome(e, v, reply).error.Rejected?
    ensures Truthy(WriteOutcome(e, v, reply).error.message)
  {
  }
}
