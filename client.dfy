/**
  The `DynamoDB` client and its table-scoped form `DynamoTable`. The document
  client they talk to is represented by the list of requests handed to it
  (`issued`); its answer to each request is a parameter of the operation.
 */
module Client {
  import opened Wrappers
  import opened Fields
  import opened Text
  import opened Expressions

  /** `DynamongoOptions`; an absent property is `None`. */
  datatype Options = Options(
    isVerbose: Option<bool>,
    timestampsEnabled: Option<bool>,
    timestampCreatedField: Option<string>,
    timestampUpdatedField: Option<string>)

  /** `options || {}`: a missing options object behaves like an empty one. */
  function OptionsOrEmpty(options: Option<Options>): Options
  {
    if options.Some? then options.value else Options(None, None, None, None)
  }

  /** A field-name option replaces the default only when it is a non-empty string. */
  function FieldNameOption(given: Option<string>, default: string): string
  {
    if given.Some? && given.value != "" then given.value else default
  }

  /** The parameter records handed to the document client's five primitives. */
  datatype Request =
    | Scan(tableName: string, filterExpression: string,
           attributeValues: map<string, Option<Value>>, attributeNames: map<string, string>)
    | Put(tableName: string, item: FieldMap)
    | Get(tableName: string, key: FieldMap)
    | Update(tableName: string, key: FieldMap, updateExpression: string,
             attributeValues: map<string, Option<Value>>, attributeNames: map<string, string>,
             returnValues: string)
    | Delete(tableName: string, key: FieldMap)

  /** The `getWhere` parameters: a scan filtered by the expression. */
  function ScanRequest(table: string, e: Expression): Request
  {
    Scan(table, e.data, e.values, e.names)
  }

  /** The `updateByKey` parameters: `SET` followed by the expression, returning the updated attributes. */
  function UpdateRequest(table: string, keys: FieldMap, e: Expression): Request
  {
    Update(table, keys, "SET " + e.data, e.values, e.names, "UPDATED_NEW")
  }

  /** What a call to the document client settles to: its payload, or the error it was rejected with. */
  datatype Reply<T> = Delivered(value: T) | TransportFailure(error: string)

  /** The answer to a `get`: `Item` is absent when no item has the key. */
  datatype GetResponse = GetResponse(item: Option<FieldMap>, metadata: FieldMap)

  /** What `getByKey` hands back: the item itself, or the whole response when there is no item. */
  datatype Fetched = FoundItem(item: FieldMap) | WholeResponse(response: Option<GetResponse>)

  /**
    `(response && response.Item) ? response.Item : response`: a found item is
    unwrapped; a missing response or a response without an item is returned as it is.
   */
  function SelectItem(response: Option<GetResponse>): (r: Fetched)
    ensures r.FoundItem? <==> response.Some? && response.value.item.Some?
    ensures r.FoundItem? ==> r.item == response.value.item.value
    ensures r.WholeResponse? ==> r.response == response
  {
    if response.Some? && response.value.item.Some? then FoundItem(response.value.item.value)
    else WholeResponse(response)
  }

  /**
    `Math.trunc(Date.now() / 1000)`: whole seconds of a millisecond clock,
    truncated toward zero.
   */
  function UnixEpoch(nowMs: int): (s: int)
    ensures nowMs >= 0 ==> 0 <= s && s * 1000 <= nowMs < s * 1000 + 1000
    ensures nowMs < 0 ==> s <= 0 && s * 1000 - 1000 < nowMs <= s * 1000
  {
    if nowMs >= 0 then nowMs / 1000 else -((-nowMs) / 1000)
  }

  class DynamoDB {
    const isVerbose: bool
    const timestampsEnabled: bool
    const timestampCreatedField: string
    const timestampUpdatedField: string
    /** Every request handed to the document client, oldest first. */
    var issued: seq<Request>

    /**
      Flags are taken from the options (an absent flag is off); the timestamp
      field names default to `createdAt` and `updatedAt`.
     */
    constructor(options: Option<Options>)
      ensures isVerbose == (OptionsOrEmpty(options).isVerbose == Some(true))
      ensures timestampsEnabled == (OptionsOrEmpty(options).timestampsEnabled == Some(true))
      ensures timestampCreatedField == FieldNameOption(OptionsOrEmpty(options).timestampCreatedField, "createdAt")
      ensures timestampUpdatedField == FieldNameOption(OptionsOrEmpty(options).timestampUpdatedField, "updatedAt")
      ensures timestampCreatedField != "" && timestampUpdatedField != ""
      ensures issued == []
    {
      var opts := OptionsOrEmpty(options);
      isVerbose := opts.isVerbose == Some(true);
      timestampsEnabled := opts.timestampsEnabled == Some(true);
      var created, updated := "createdAt", "updatedAt";
      if opts.timestampCreatedField.Some? && opts.timestampCreatedField.value != "" {
        created := opts.timestampCreatedField.value;
      }
      if opts.timestampUpdatedField.Some? && opts.timestampUpdatedField.value != "" {
        updated := opts.timestampUpdatedField.value;
      }
      timestampCreatedField, timestampUpdatedField := created, updated;
      issued := [];
    }

    /** Scans `table` with a filter requiring every property of `where` (joined by `AND`). */
    method GetWhere(table: string, where: FieldMap, reply: Reply<FieldMap>) returns (result: Reply<FieldMap>)
      modifies this`issued
      ensures issued == old(issued) + [ScanRequest(table, ExpressionOf(where, "AND"))]
      ensures result == reply
    {
      var expression := GenerateExpression(where, "AND");
      issued := issued + [ScanRequest(table, expression)];
      result := reply;
    }

    /**
      Puts the caller's object as the item; with timestamps on, the object
      itself first gets the created field set to the current epoch second.
     */
    method Insert(table: string, data: Document, nowMs: int, reply: Reply<FieldMap>) returns (result: Reply<FieldMap>)
      modifies this`issued, data
      ensures data.fields == if timestampsEnabled
        then Assign(old(data.fields), timestampCreatedField, Number(UnixEpoch(nowMs)))
        else old(data.fields)
      ensures old(data.Valid()) ==> data.Valid()
      ensures issued == old(issued) + [Put(table, data.fields)]
      ensures result == reply
    {
      if timestampsEnabled {
        data.Set(timestampCreatedField, Number(UnixEpoch(nowMs)));
      }
      issued := issued + [Put(table, data.fields)];
      result := reply;
    }

    /** Gets the item under `keys`; the item is unwrapped when the response has one. */
    method GetByKey(table: string, keys: FieldMap, reply: Reply<Option<GetResponse>>) returns (result: Reply<Fetched>)
      modifies this`issued
      ensures issued == old(issued) + [Get(table, keys)]
      ensures result == match reply
        case Delivered(response) => Delivered(SelectItem(response))
        case TransportFailure(error) => TransportFailure(error)
    {
      issued := issued + [Get(table, keys)];
      match reply
      case Delivered(response) =>
        result := Delivered(SelectItem(response));
      case TransportFailure(error) =>
        result := TransportFailure(error);
    }

    /**
      Updates the item under `keys`: with timestamps on, the caller's object
      first gets the updated field set; then every property of the object is
      SET through the expression (joined by `,`), asking for the new values back.
     */
    method UpdateByKey(table: string, keys: FieldMap, data: Document, nowMs: int, reply: Reply<FieldMap>)
      returns (result: Reply<FieldMap>)
      modifies this`issued, data
      ensures data.fields == if timestampsEnabled
        then Assign(old(data.fields), timestampUpdatedField, Number(UnixEpoch(nowMs)))
        else old(data.fields)
      ensures old(data.Valid()) ==> data.Valid()
      ensures issued == old(issued) + [UpdateRequest(table, keys, ExpressionOf(data.fields, ","))]
      ensures result == reply
    {
      if timestampsEnabled {
        data.Set(timestampUpdatedField, Number(UnixEpoch(nowMs)));
      }
      var expression := GenerateExpression(data.fields, ",");
      issued := issued + [UpdateRequest(table, keys, expression)];
      result := reply;
    }

    /** Deletes the item under `keys`. */
    method DeleteByKey(table: string, keys: FieldMap, reply: Reply<FieldMap>) returns (result: Reply<FieldMap>)
      modifies this`issued
      ensures issued == old(issued) + [Delete(table, keys)]
      ensures result == reply
    {
      issued := issued + [Delete(table, keys)];
      result := reply;
    }
  }

  /**
    A client bound to one table: each operation is the `DynamoDB` operation
    called with the stored `table`, so it hands the document client exactly
    the request the unscoped call would.
   */
  class DynamoTable {
    const db: DynamoDB
    var table: string

    constructor(table: string, options: Option<Options>)
      ensures this.table == table && fresh(db) && db.issued == []
      ensures db.timestampsEnabled == (OptionsOrEmpty(options).timestampsEnabled == Some(true))
      ensures db.timestampCreatedField == FieldNameOption(OptionsOrEmpty(options).timestampCreatedField, "createdAt")
      ensures db.timestampUpdatedField == FieldNameOption(OptionsOrEmpty(options).timestampUpdatedField, "updatedAt")
    {
      db := new DynamoDB(options);
      this.table := table;
    }

    method GetByKey(keys: FieldMap, reply: Reply<Option<GetResponse>>) returns (result: Reply<Fetched>)
      modifies db`issued
      ensures db.issued == old(db.issued) + [Get(table, keys)]
      ensures result == match reply
        case Delivered(response) => Delivered(SelectItem(response))
        case TransportFailure(error) => TransportFailure(error)
    {
      result := db.GetByKey(table, keys, reply);
    }

    method UpdateByKey(keys: FieldMap, data: Document, nowMs: int, reply: Reply<FieldMap>) returns (result: Reply<FieldMap>)
      modifies db`issued, data
      ensures data.fields == if db.timestampsEnabled
        then Assign(old(data.fields), db.timestampUpdatedField, Number(UnixEpoch(nowMs)))
        else old(data.fields)
      ensures db.issued == old(db.issued) + [UpdateRequest(table, keys, ExpressionOf(data.fields, ","))]
      ensures result == reply
    {
      result := db.UpdateByKey(table, keys, data, nowMs, reply);
    }

    method DeleteByKey(keys: FieldMap, reply: Reply<FieldMap>) returns (result: Reply<FieldMap>)
      modifies db`issued
      ensures db.issued == old(db.issued) + [Delete(table, keys)]
      ensures result == reply
    {
      result := db.DeleteByKey(table, keys, reply);
    }

    method GetWhere(where: FieldMap, reply: Reply<FieldMap>) returns (result: Reply<FieldMap>)
      modifies db`issued
      ensures db.issued == old(db.issued) + [ScanRequest(table, ExpressionOf(where, "AND"))]
      ensures result == reply
    {
      result := db.GetWhere(table, where, reply);
    }

    method Insert(data: Document, nowMs: int, reply: Reply<FieldMap>) returns (result: Reply<FieldMap>)
      modifies db`issued, data
      ensures data.fields == if db.timestampsEnabled
        then Assign(old(data.fields), db.timestampCreatedField, Number(UnixEpoch(nowMs)))
        else old(data.fields)
      ensures db.issued == old(db.issued) + [Put(table, data.fields)]
      ensures result == reply
    {
      result := db.Insert(table, data, nowMs, reply);
    }
  }

  /** Later clock readings never give an earlier epoch second. */
  lemma EpochMonotone(a: int, b: int)
    requires a <= b
    ensures UnixEpoch(a) <= UnixEpoch(b)
  {
  }

  /** All clock readings within one whole second give that second. */
  lemma EpochConstantWithinSecond(s: int, a: int)
    requires 0 <= s * 1000 <= a < s * 1000 + 1000
    ensures UnixEpoch(a) == s
  {
  }

  /**
    With timestamps on, the update expression covers the updated field: some
    placeholder pair names it and carries the epoch second, provided the field
    name is letters only (otherwise the sanitised lookup loses the value).
   */
  lemma UpdateCoversTimestamp(data: FieldMap, field: string, t: int)
    requires IsLetters(field)
    ensures var patched := Assign(data, field, Number(t));
      var e := ExpressionOf(patched, ",");
      exists i :: 0 <= i < |patched|
        && NameKey(i) in e.names && e.names[NameKey(i)] == field
        && ValueKey(i) in e.values && e.values[ValueKey(i)] == Some(Number(t))
  {
    var patched := Assign(data, field, Number(t));
    AssignKeys(data, field, Number(t));
    assert field in KeysOf(patched);
    var i :| 0 <= i < |patched| && KeysOf(patched)[i] == field;
    ExpressionNames(patched, ",", i);
    ExpressionValues(patched, ",", i);
    AssignLookup(data, field, Number(t), field);
  }

  /**
    The texts of the scan filter and of the update are placeholders and
    separators only: no attribute name or value is spliced into them.
   */
  lemma RequestTextsArePlaceholders(table: string, keys: FieldMap, data: FieldMap, c: char)
    ensures c in ScanRequest(table, ExpressionOf(data, "AND")).filterExpression ==> PlaceholderChar(c) || c in "AND"
    ensures c in UpdateRequest(table, keys, ExpressionOf(data, ",")).updateExpression ==> PlaceholderChar(c) || c in "SET,"
  {
    if c in Clause(|data|, "AND") {
      ClauseAlphabet(|data|, "AND", c);
    }
    if c in Clause(|data|, ",") {
      ClauseAlphabet(|data|, ",", c);
    }
  }

  /** `insert("Users", {name: "Ann"})` with timestamps on puts `{name: "Ann", createdAt: t}`. */
  lemma InsertExample(t: int)
    ensures Assign([("name", Text("Ann"))], "createdAt", Number(t))
         == [("name", Text("Ann")), ("createdAt", Number(t))]
  {
  }

  /** `updateByKey("Users", {id: 1}, {status: "active"})` with timestamps off. */
  lemma UpdateExample()
    ensures UpdateRequest("Users", [("id", Number(1))], ExpressionOf([("status", Text("active"))], ","))
         == Update("Users", [("id", Number(1))], "SET #0 = :val0",
                   map[":val0" := Some(Text("active"))], map["#0" := "status"], "UPDATED_NEW")
  {
    var data := [("status", Text("active"))];
    assert IsLetters("status");
    LookupAt(data, 0);
    assert Decimal(0) == "0" && NameKey(0) == "#0" && ValueKey(0) == ":val0";
    UpdateClauseExamples();
  }

  /** `getWhere("Users", {status: "active", role: "admin"})`. */
  lemma GetWhereExample()
    ensures ScanRequest("Users", ExpressionOf([("status", Text("active")), ("role", Text("admin"))], "AND"))
         == Scan("Users", "#0 = :val0 AND #1 = :val1",
                 map[":val0" := Some(Text("active")), ":val1" := Some(Text("admin"))],
                 map["#0" := "status", "#1" := "role"])
  {
    var data := [("status", Text("active")), ("role", Text("admin"))];
    assert IsLetters("status") && IsLetters("role");
    assert UniqueKeys(data);
    LookupAt(data, 0);
    LookupAt(data, 1);
    assert Decimal(0) == "0" && NameKey(0) == "#0" && ValueKey(0) == ":val0";
    assert Decimal(1) == "1" && NameKey(1) == "#1" && ValueKey(1) == ":val1";
    FilterClauseExample();
  }

  /**
    A client scoped to `table` and an unscoped client built from the same
    options hand the document client the same get, scan and delete requests.
   */
  method ScopedReadsMatchUnscoped(table: string, options: Option<Options>, keys: FieldMap, where: FieldMap)
    returns (scopedRequests: seq<Request>, plainRequests: seq<Request>)
    ensures scopedRequests == plainRequests
    ensures plainRequests == [Get(table, keys), ScanRequest(table, ExpressionOf(where, "AND")), Delete(table, keys)]
  {
    var scoped := new DynamoTable(table, options);
    var plain := new DynamoDB(options);
    var none: Reply<FieldMap> := TransportFailure("not sent");
    var miss: Reply<Option<GetResponse>> := Delivered(None);

    var _ := scoped.GetByKey(keys, miss);
    var _ := plain.GetByKey(table, keys, miss);
    var _ := scoped.GetWhere(where, none);
    var _ := plain.GetWhere(table, where, none);
    var _ := scoped.DeleteByKey(keys, none);
    var _ := plain.DeleteByKey(table, keys, none);
    scopedRequests, plainRequests := scoped.db.issued, plain.issued;
  }

  /**
    The same for insert and update: equal put and update requests, and the
    caller's objects end up with the same properties.
   */
  method ScopedWritesMatchUnscoped(table: string, options: Option<Options>, keys: FieldMap, data: FieldMap, nowMs: int)
    returns (scopedRequests: seq<Request>, plainRequests: seq<Request>, scopedData: FieldMap, plainData: FieldMap)
    ensures scopedRequests == plainRequests && scopedData == plainData
    ensures |plainRequests| == 2 && plainRequests[0].Put? && plainRequests[1].Update?
  {
    var scoped := new DynamoTable(table, options);
    var plain := new DynamoDB(options);
    var scopedItem := new Document(data);
    var plainItem := new Document(data);
    var none: Reply<FieldMap> := TransportFailure("not sent");

    var _ := scoped.Insert(scopedItem, nowMs, none);
    var _ := plain.Insert(table, plainItem, nowMs, none);
    assert scopedItem.fields == plainItem.fields;
    assert scoped.db.issued == plain.issued;
    var _ := scoped.UpdateByKey(keys, scopedItem, nowMs, none);
    var _ := plain.UpdateByKey(table, keys, plainItem, nowMs, none);
    scopedRequests, plainRequests := scoped.db.issued, plain.issued;
    scopedData, plainData := scopedItem.fields, plainItem.fields;
  }
}
