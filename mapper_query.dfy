/** The data mapper's query support: the normalisation of a key condition
    written as a record of property values, the `QueryInput` the mapper's
    `QueryPaginator` builds from its options, and the mapper's `Paginator`,
    which wraps a query iterator paginator and decodes every page with the
    item schema. */
module MapperQuery {
  import opened Wrappers
  import opened Values
  import opened SchemaTypes
  import opened Conditions
  import opened ExpressionAttributes
  import opened ProjectionExpression
  import SK = StartKey
  import DM = DataMarshall
  import DU = DataUnmarshall
  import RT = RoundTrip
  import P = Pagination
  import CC = ConsumedCapacity

  // ---------------------------------------------------------------------------
  // normalizeKeyCondition

  /** The value given for one property of a key condition record: a
      condition predicate, or any other value, which asks for equality. */
  datatype KeyConditionValue = PredicateValue(test: Predicate) | PlainValue(value: JsValue)

  /** The key condition a query is given: a condition expression, or a record
      from property names to predicates or values, in key order. */
  datatype KeyCondition =
    | ConditionExpression(condition: Condition)
    | KeyRecord(properties: seq<(string, KeyConditionValue)>)

  /** The condition one property of a record stands for: its predicate with
      the property as subject, or an `Equals` condition on its value. */
  function PropertyCondition(property: string, v: KeyConditionValue): (c: Condition)
    ensures c.Compare? && c.subject == property
    ensures v.PredicateValue? ==> c.test == v.test
    ensures v.PlainValue? ==> c.test == Predicate("Equals", [v.value])
  {
    match v
    case PredicateValue(p) => Compare(property, p)
    case PlainValue(x) => Equals(property, x)
  }

  /** The conditions of the first `n` properties of a record, in order. */
  function PropertyConditions(properties: seq<(string, KeyConditionValue)>, n: nat): (r: seq<Condition>)
    requires n <= |properties|
    ensures |r| == n
    decreases n
  {
    if n == 0 then []
    else PropertyConditions(properties, n - 1) + [PropertyCondition(properties[n - 1].0, properties[n - 1].1)]
  }

  /** `normalizeKeyCondition(keyCondition)`. */
  function NormalizeSpec(keyCondition: KeyCondition): (r: Condition)
    ensures keyCondition.ConditionExpression? ==> r == keyCondition.condition
    ensures keyCondition.KeyRecord? && |keyCondition.properties| != 1 ==>
      r.And? && |r.conditions| == |keyCondition.properties|
  {
    match keyCondition
    case ConditionExpression(c) => c
    case KeyRecord(properties) =>
      var conditions := PropertyConditions(properties, |properties|);
      if |conditions| == 1 then conditions[0] else And(conditions)
  }

  method NormalizeKeyCondition(keyCondition: KeyCondition) returns (r: Condition)
    ensures r == NormalizeSpec(keyCondition)
  {
    if keyCondition.ConditionExpression? {
      return keyCondition.condition;
    }
    var properties := keyCondition.properties;
    var conditions: seq<Condition> := [];
    var i := 0;
    while i < |properties|
      invariant 0 <= i <= |properties|
      invariant conditions == PropertyConditions(properties, i)
    {
      var (property, v) := properties[i];
      if v.PredicateValue? {
        conditions := conditions + [Compare(property, v.test)];
      } else {
        conditions := conditions + [Equals(property, v.value)];
      }
      i := i + 1;
    }
    if |conditions| == 1 {
      return conditions[0];
    }
    r := And(conditions);
  }

  /** Each condition built from a record is its property's condition. */
  lemma {:induction false} PropertyConditionsAt(properties: seq<(string, KeyConditionValue)>, n: nat, i: nat)
    requires i < n <= |properties|
    ensures PropertyConditions(properties, n)[i] == PropertyCondition(properties[i].0, properties[i].1)
    decreases n
  {
    if i < n - 1 {
      PropertyConditionsAt(properties, n - 1, i);
    }
  }

  /** A record's condition has one condition per property, in property
      order, each on that property; more or fewer than one are put in an
      `And`. */
  lemma NormalizeShape(properties: seq<(string, KeyConditionValue)>)
    ensures |properties| == 1 ==> NormalizeSpec(KeyRecord(properties)) == PropertyCondition(properties[0].0, properties[0].1)
    ensures |properties| != 1 ==> NormalizeSpec(KeyRecord(properties)) == And(PropertyConditions(properties, |properties|))
    ensures forall i :: 0 <= i < |properties| ==>
      PropertyConditions(properties, |properties|)[i] == PropertyCondition(properties[i].0, properties[i].1)
  {
    forall i | 0 <= i < |properties|
      ensures PropertyConditions(properties, |properties|)[i] == PropertyCondition(properties[i].0, properties[i].1)
    {
      PropertyConditionsAt(properties, |properties|, i);
    }
  }

  /** A record's condition holds exactly when every property's condition
      holds, whether or not it is wrapped in an `And`. */
  lemma NormalizeHolds(properties: seq<(string, KeyConditionValue)>, stored: seq<(string, JsValue)>)
    ensures Holds(NormalizeSpec(KeyRecord(properties)), stored) <==>
      forall i :: 0 <= i < |properties| ==> Holds(PropertyCondition(properties[i].0, properties[i].1), stored)
  {
    NormalizeShape(properties);
    if |properties| == 1 {
      assert forall i :: 0 <= i < |properties| ==> properties[i] == properties[0];
    } else {
      var cs := PropertyConditions(properties, |properties|);
      assert Holds(And(cs), stored) <==> forall i :: 0 <= i < |cs| ==> Holds(cs[i], stored);
    }
  }

  /** A record of plain values asks for exactly those values: the condition
      holds when every named property is stored with its given value. */
  lemma PlainRecordHolds(properties: seq<(string, KeyConditionValue)>, stored: seq<(string, JsValue)>)
    requires forall i :: 0 <= i < |properties| ==> properties[i].1.PlainValue?
    ensures Holds(NormalizeSpec(KeyRecord(properties)), stored) <==>
      forall i :: 0 <= i < |properties| ==> Get(stored, properties[i].0) == Some(properties[i].1.value)
  {
    NormalizeHolds(properties, stored);
  }

  // ---------------------------------------------------------------------------
  // The request the mapper's QueryPaginator builds

  /** The options of a query. */
  datatype QueryOptions = QueryOptions(
    filter: Option<Condition>,
    indexName: Option<string>,
    limit: Option<int>,
    pageSize: Option<int>,
    projection: Option<seq<Projected>>,
    readConsistency: Option<string>,
    scanIndexForward: Option<bool>,
    startKey: Option<seq<(string, JsValue)>>,
    tableNamePrefix: Option<string>)

  /** The `QueryInput` fields the mapper sets. */
  datatype QueryInput = QueryInput(
    tableName: string,
    scanIndexForward: Option<bool>,
    limit: Option<int>,
    indexName: Option<string>,
    consistentRead: Option<bool>,
    keyConditionExpression: string,
    filterExpression: Option<string>,
    projectionExpression: Option<string>,
    expressionAttributeNames: Option<map<string, string>>,
    expressionAttributeValues: Option<map<string, AttributeValue>>,
    exclusiveStartKey: Option<SK.StartKeyMap>)

  /** The data marshaller's expression serialisers, which the request
      building calls: each writes its expression into the shared context and
      gives back the expression and the context. */
  datatype Serializers = Serializers(
    condition: (Condition, Schema, AttrState<AttributeValue>) -> (string, AttrState<AttributeValue>),
    projection: (seq<Projected>, Schema, AttrState<AttributeValue>) -> (string, AttrState<AttributeValue>))

  /** The expressions of a query in the order they are serialised: the key
      condition, the filter, then the projection, all in one context. */
  function QueryExpressions(ser: Serializers, schema: Schema, keyCondition: KeyCondition, options: QueryOptions)
    : (string, Option<string>, Option<string>, AttrState<AttributeValue>)
  {
    var (key, st1) := ser.condition(NormalizeSpec(keyCondition), schema, Empty());
    var (filter, st2) := if options.filter.Some? then
        var (e, st) := ser.condition(options.filter.value, schema, st1); (Some(e), st)
      else (None, st1);
    var (projection, st3) := if options.projection.Some? then
        var (e, st) := ser.projection(options.projection.value, schema, st2); (Some(e), st)
      else (None, st2);
    (key, filter, projection, st3)
  }

  /** The fields of the request of `new QueryPaginator(client,
      valueConstructor, keyCondition, options)` other than the start key, for
      an item class with schema `schema` and table name `tableName`. */
  function RequestFields(ser: Serializers, schema: Schema, tableName: string,
                         keyCondition: KeyCondition, options: QueryOptions): (q: QueryInput)
    ensures q.tableName == options.tableNamePrefix.GetOr("") + tableName
    ensures q.limit == options.pageSize && q.indexName == options.indexName
    ensures q.scanIndexForward == options.scanIndexForward
    ensures q.consistentRead == Some(true) <==> options.readConsistency == Some("strong")
    ensures q.consistentRead != Some(false)
    ensures q.filterExpression.Some? <==> options.filter.Some?
    ensures q.projectionExpression.Some? <==> options.projection.Some?
    ensures q.keyConditionExpression == ser.condition(NormalizeSpec(keyCondition), schema, Empty()).0
    ensures var st := QueryExpressions(ser, schema, keyCondition, options).3;
      && (q.expressionAttributeNames.Some? <==> |st.names| > 0)
      && (q.expressionAttributeNames.Some? ==> q.expressionAttributeNames.value == st.names)
      && (q.expressionAttributeValues.Some? <==> |st.values| > 0)
      && (q.expressionAttributeValues.Some? ==> q.expressionAttributeValues.value == st.values)
    ensures q.exclusiveStartKey.None?
  {
    var (key, filter, projection, st) := QueryExpressions(ser, schema, keyCondition, options);
    QueryInput(
      options.tableNamePrefix.GetOr("") + tableName,
      options.scanIndexForward,
      options.pageSize,
      options.indexName,
      if options.readConsistency == Some("strong") then Some(true) else None,
      key,
      filter,
      projection,
      if |st.names| > 0 then Some(st.names) else None,
      if |st.values| > 0 then Some(st.values) else None,
      None)
  }

  /** The whole request: the fields above and the marshalled start key; a
      start key that cannot be marshalled throws. */
  function QueryRequestSpec(ser: Serializers, host: DM.Host, schema: Schema, tableName: string,
                            keyCondition: KeyCondition, options: QueryOptions): (r: Result<QueryInput>)
    ensures r.Err? <==> options.startKey.Some? && SK.StartKeyFold(DM.MarshallerOf(host), schema, options.startKey.value).Err?
    ensures r.Ok? ==> r.value.(exclusiveStartKey := None) == RequestFields(ser, schema, tableName, keyCondition, options)
    ensures r.Ok? ==> (r.value.exclusiveStartKey.Some? <==> options.startKey.Some?)
    ensures r.Ok? && options.startKey.Some? ==>
      Ok(r.value.exclusiveStartKey.value) == SK.StartKeyFold(DM.MarshallerOf(host), schema, options.startKey.value)
  {
    var fields := RequestFields(ser, schema, tableName, keyCondition, options);
    if options.startKey.None? then Ok(fields)
    else
      match SK.StartKeyFold(DM.MarshallerOf(host), schema, options.startKey.value)
      case Err(e) => Err(e)
      case Ok(key) => Ok(fields.(exclusiveStartKey := Some(key)))
  }

  /** The request-building part of the mapper's `QueryPaginator`
      constructor: the fields are set one after the other, the start key
      last. */
  method QueryRequest(ser: Serializers, host: DM.Host, schema: Schema, tableName: string,
                      keyCondition: KeyCondition, options: QueryOptions) returns (r: Result<QueryInput>)
    ensures r == QueryRequestSpec(ser, host, schema, tableName, keyCondition, options)
  {
    var request := BuildFields(ser, schema, tableName, keyCondition, options);
    if options.startKey.Some? {
      var startKey := SK.MarshallStartKey(DM.MarshallerOf(host), schema, options.startKey.value);
      if startKey.Err? {
        return Err(startKey.error);
      }
      request := request.(exclusiveStartKey := Some(startKey.value));
    }
    r := Ok(request);
  }

  /** The fields of the request before the start key. */
  method BuildFields(ser: Serializers, schema: Schema, tableName: string,
                     keyCondition: KeyCondition, options: QueryOptions) returns (request: QueryInput)
    ensures request == RequestFields(ser, schema, tableName, keyCondition, options)
  {
    request := QueryInput(options.tableNamePrefix.GetOr("") + tableName, options.scanIndexForward,
                          options.pageSize, options.indexName, None, "", None, None, None, None, None);
    if options.readConsistency == Some("strong") {
      request := request.(consistentRead := Some(true));
    }
    var attributes: AttrState<AttributeValue> := Empty();
    var normalized := NormalizeKeyCondition(keyCondition);
    var serialized := ser.condition(normalized, schema, attributes);
    attributes := serialized.1;
    request := request.(keyConditionExpression := serialized.0);
    if options.filter.Some? {
      serialized := ser.condition(options.filter.value, schema, attributes);
      attributes := serialized.1;
      request := request.(filterExpression := Some(serialized.0));
    }
    if options.projection.Some? {
      serialized := ser.projection(options.projection.value, schema, attributes);
      attributes := serialized.1;
      request := request.(projectionExpression := Some(serialized.0));
    }
    assert (request.keyConditionExpression, request.filterExpression, request.projectionExpression, attributes)
        == QueryExpressions(ser, schema, keyCondition, options);
    if |attributes.names| > 0 {
      request := request.(expressionAttributeNames := Some(attributes.names));
    }
    if |attributes.values| > 0 {
      request := request.(expressionAttributeValues := Some(attributes.values));
    }
  }

  // ---------------------------------------------------------------------------
  // The mapper's Paginator

  /** An unmarshalled item. */
  type Decoded = seq<(string, JsValue)>

  /** `(Items || []).map(item => unmarshallItem(itemSchema, item))`: the first
      item that does not unmarshall throws. */
  function DecodeItems(schema: Schema, items: seq<P.Item>): (r: Result<seq<Decoded>>)
    ensures r.Ok? ==> |r.value| == |items|
    decreases |items|
  {
    if |items| == 0 then Ok([])
    else
      match DecodeItems(schema, items[..|items| - 1])
      case Err(e) => Err(e)
      case Ok(decoded) =>
        match DU.UnmarshallItemSpec(schema, items[|items| - 1])
        case Err(e) => Err(e)
        case Ok(x) => Ok(decoded + [x])
  }

  /** `LastEvaluatedKey && unmarshallItem(itemSchema, LastEvaluatedKey)`. */
  function DecodeKey(schema: Schema, key: Option<P.Key>): (r: Result<Option<Decoded>>)
    ensures key.None? ==> r == Ok(None)
    ensures key.Some? ==> (r.Ok? <==> DU.UnmarshallItemSpec(schema, key.value).Ok?)
    ensures key.Some? && r.Ok? ==> r.value == Some(DU.UnmarshallItemSpec(schema, key.value).value)
  {
    if key.None? then Ok(None)
    else
      match DU.UnmarshallItemSpec(schema, key.value)
      case Err(e) => Err(e)
      case Ok(k) => Ok(Some(k))
  }

  /** What the mapper's `next()` resolves to: no more pages, or one page of
      decoded items. */
  datatype PageResult = Finished | Items(items: seq<Decoded>)

  /** `getNext()` after the wrapped paginator's `next()` settled with
      `result`: a page refreshes the last key, then decodes its items; a
      done result leaves the last key alone. */
  function Deliver(schema: Schema, result: Result<P.Step>, lastKey: Option<Decoded>)
    : (r: (Result<PageResult>, Option<Decoded>))
    ensures result.Err? ==> r == (Err(result.error), lastKey)
    ensures result == Ok(P.Done) ==> r == (Ok(Finished), lastKey)
    ensures result.Ok? && result.value.Yield? && r.0.Ok? ==>
      r.0.value.Items? && |r.0.value.items| == |P.ItemsOf(result.value.page)|
    ensures result.Ok? && result.value.Yield? && DecodeKey(schema, result.value.page.lastEvaluatedKey).Ok? ==>
      r.1 == DecodeKey(schema, result.value.page.lastEvaluatedKey).value
  {
    match result
    case Err(e) => (Err(e), lastKey)
    case Ok(Done) => (Ok(Finished), lastKey)
    case Ok(Yield(page)) =>
      match DecodeKey(schema, page.lastEvaluatedKey)
      case Err(e) => (Err(e), lastKey)
      case Ok(key) =>
        match DecodeItems(schema, P.ItemsOf(page))
        case Err(e) => (Err(e), key)
        case Ok(items) => (Ok(Items(items)), key)
  }

  class Paginator {
    /** The query iterator paginator this one wraps. */
    const paginator: P.Paginator
    const itemSchema: Schema
    var lastKey: Option<Decoded>
    /** The rejection every later `next()` repeats (the chained
        `lastResolved` promise). */
    var failure: Option<string>

    /** The wrapped paginator is consistent, and while nothing has been
        rejected the last key is the decoded key of the last page received. */
    ghost predicate Valid()
      reads this, paginator
    {
      && paginator.Valid()
      && (failure.None? ==>
            paginator.failure.None? && DecodeKey(itemSchema, P.LastKeyOf(paginator.pages)) == Ok(lastKey))
    }

    constructor(paginator: P.Paginator, itemSchema: Schema)
      requires paginator.Valid() && paginator.pages == [] && paginator.failure.None?
      ensures Valid()
      ensures this.paginator == paginator && this.itemSchema == itemSchema
      ensures lastKey == None && failure == None
    {
      this.paginator := paginator;
      this.itemSchema := itemSchema;
      lastKey := None;
      failure := None;
    }

    /** `next()`. */
    method Next() returns (r: Result<PageResult>)
      requires Valid()
      modifies this, paginator
      ensures Valid()
      ensures old(failure).Some? ==>
        && r == Err(old(failure).value) && failure == old(failure) && lastKey == old(lastKey)
        && paginator.State() == old(paginator.State()) && paginator.pages == old(paginator.pages)
      ensures old(failure).None? ==>
        var o := P.Advance(paginator.backend, paginator.op, paginator.limit, old(paginator.State()));
        && paginator.State() == o.state
        && paginator.pages == old(paginator.pages) + P.Received(o)
        && (r, lastKey) == Deliver(itemSchema, o.result, old(lastKey))
        && failure == (if r.Err? then Some(r.error) else None)
    {
      if failure.Some? {
        return Err(failure.value);
      }
      var step := paginator.Next();
      var delivered := Deliver(itemSchema, step, lastKey);
      r := delivered.0;
      lastKey := delivered.1;
      if r.Err? {
        failure := Some(r.error);
      } else {
        DeliverKeepsKey(itemSchema, step, old(lastKey), old(paginator.pages), paginator.pages);
      }
    }

    /** `return()`: every later `next()` rejects, and the wrapped paginator
        is returned too. */
    method Return() returns (r: P.Step)
      requires Valid()
      modifies this, paginator
      ensures Valid()
      ensures r == P.Done
      ensures failure == Some(P.Interrupted) && lastKey == old(lastKey)
      ensures paginator.State() == old(paginator.State()).(failure := Some(P.Interrupted))
      ensures paginator.pages == old(paginator.pages)
    {
      failure := Some(P.Interrupted);
      r := paginator.Return();
    }

    /** The `count` getter: the wrapped paginator's count, which is the
        number of items of every page received. */
    function Count(): (c: nat)
      reads this, paginator
      requires Valid()
      ensures c == P.TotalItems(paginator.pages)
    {
      paginator.count
    }

    /** The `scannedCount` getter: the wrapped paginator's, which adds up the
        pages' scanned counts. */
    function ScannedCount(): (c: nat)
      reads this, paginator
      requires Valid()
      ensures c == P.TotalScanned(paginator.pages)
    {
      paginator.scannedCount
    }

    /** The `consumedCapacity` getter: the wrapped paginator's, which merges
        the pages' reports. */
    function ConsumedCapacity(): (c: Option<CC.Report>)
      reads this, paginator
      requires Valid()
      ensures failure.None? ==> P.MergeAll(paginator.pages) == Ok(c)
    {
      paginator.consumedCapacity
    }

    /** The `lastEvaluatedKey` getter: while nothing has been rejected, the
        decoded key of the last page received. */
    function LastEvaluatedKey(): (k: Option<Decoded>)
      reads this, paginator
      requires Valid()
      ensures failure.None? ==> DecodeKey(itemSchema, P.LastKeyOf(paginator.pages)) == Ok(k)
    {
      lastKey
    }
  }

  /** A delivered page or a done result keeps the last key that of the last
      page received. */
  lemma DeliverKeepsKey(schema: Schema, result: Result<P.Step>, lastKey: Option<Decoded>,
                        pages: seq<P.Page>, pages': seq<P.Page>)
    requires Deliver(schema, result, lastKey).0.Ok?
    requires result.Ok? && result.value.Done? ==> pages' == pages
    requires result.Ok? && result.value.Yield? ==> pages' == pages + [result.value.page]
    requires DecodeKey(schema, P.LastKeyOf(pages)) == Ok(lastKey)
    ensures DecodeKey(schema, P.LastKeyOf(pages')) == Ok(Deliver(schema, result, lastKey).1)
  {
  }

  /** A page whose key and items all unmarshall is delivered as its items
      decoded one for one, in order, and the last key becomes its decoded
      key, `None` when the page has none. */
  lemma DeliverPage(schema: Schema, page: P.Page, lastKey: Option<Decoded>)
    requires page.lastEvaluatedKey.Some? ==> DU.UnmarshallItemSpec(schema, page.lastEvaluatedKey.value).Ok?
    requires forall i :: 0 <= i < |P.ItemsOf(page)| ==> DU.UnmarshallItemSpec(schema, P.ItemsOf(page)[i]).Ok?
    ensures var (r, key) := Deliver(schema, Ok(P.Yield(page)), lastKey);
      && r.Ok? && r.value.Items? && |r.value.items| == |P.ItemsOf(page)|
      && (forall i :: 0 <= i < |P.ItemsOf(page)| ==>
            Ok(r.value.items[i]) == DU.UnmarshallItemSpec(schema, P.ItemsOf(page)[i]))
      && (page.lastEvaluatedKey.None? ==> key == None)
      && (page.lastEvaluatedKey.Some? ==> key == Some(DU.UnmarshallItemSpec(schema, page.lastEvaluatedKey.value).value))
  {
    DecodeItemsMeaning(schema, P.ItemsOf(page));
  }

  /** The items of a page are decoded one for one, in order, and decoding
      fails exactly when one of them does not unmarshall. */
  lemma {:induction false} DecodeItemsMeaning(schema: Schema, items: seq<P.Item>)
    ensures DecodeItems(schema, items).Ok? <==>
      forall i :: 0 <= i < |items| ==> DU.UnmarshallItemSpec(schema, items[i]).Ok?
    ensures DecodeItems(schema, items).Ok? ==>
      forall i :: 0 <= i < |items| ==> Ok(DecodeItems(schema, items).value[i]) == DU.UnmarshallItemSpec(schema, items[i])
    decreases |items|
  {
    if |items| > 0 {
      var pre := items[..|items| - 1];
      DecodeItemsMeaning(schema, pre);
      assert forall i :: 0 <= i < |pre| ==> pre[i] == items[i];
    }
  }

  /** A page decodes to given values exactly when each of its items
      unmarshalls to the value in the same position. */
  lemma DecodeAgreeing(schema: Schema, items: seq<P.Item>, values: seq<Decoded>)
    requires |items| == |values|
    requires forall i :: 0 <= i < |items| ==> DU.UnmarshallItemSpec(schema, items[i]) == Ok(values[i])
    ensures DecodeItems(schema, items) == Ok(values)
  {
    DecodeItemsMeaning(schema, items);
    var decoded := DecodeItems(schema, items).value;
    assert forall i :: 0 <= i < |values| ==> Ok(decoded[i]) == Ok(values[i]);
    assert decoded == values;
  }

  /** Items written with the schema come back as written: a page of
      marshalled items that fit the schema decodes to those items. */
  lemma DecodeMarshalledItems(host: DM.Host, schema: Schema, values: seq<Decoded>, items: seq<P.Item>)
    requires |items| == |values|
    requires forall i :: 0 <= i < |values| ==> RT.Fits(Root(schema), Object(values[i]))
    requires forall i :: 0 <= i < |values| ==> DM.MarshallItemSpec(host, schema, Object(values[i])) == Ok(items[i])
    ensures DecodeItems(schema, items) == Ok(values)
  {
    forall i | 0 <= i < |values|
      ensures DU.UnmarshallItemSpec(schema, items[i]) == Ok(values[i])
    {
      RT.ItemRoundTrip(host, schema, values[i]);
    }
    DecodeAgreeing(schema, items, values);
  }
}
