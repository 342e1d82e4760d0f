/** The data mapper's batch helpers: the per-table options of a batch get, and
    the bookkeeping `mapGetBatch` and `mapWriteBatch` keep so that each item
    the batch returns can be matched with the schema it was submitted with. */
module MapperBatch {
  import opened Wrappers
  import opened Text
  import opened Values
  import opened AttributePath
  import opened ExpressionAttributes
  import opened ProjectionExpression
  import opened SchemaTypes
  import DM = DataMarshall
  import MK = MarshallKey
  import opened MapperKeys
  import DU = DataUnmarshall
  import RT = RoundTrip

  // ---------------------------------------------------------------------------
  // convertBatchGetOptions

  /** The options of one table in a batch get: its read consistency, the
      properties to project, and the schema they are named in. */
  datatype BatchGetTableOptions = BatchGetTableOptions(
    readConsistency: Option<string>,
    projection: Option<seq<Projected>>,
    projectionSchema: Option<Schema>)

  /** The per-table part of a `BatchGetItem` request. */
  datatype TableOptions = TableOptions(
    consistentRead: Option<bool>,
    projectionExpression: Option<string>,
    expressionAttributeNames: Option<map<string, string>>)

  /** `toSchemaName` of one projected item, as a path; a string that does not
      parse throws the parser's error. */
  function RenameItem(item: Projected, schema: Schema): Result<Projected>
  {
    match item
    case PathItem(p) => Ok(PathItem(FromElements(Rename(p.elements, Some(Root(schema))))))
    case StringItem(t) =>
      match ParsePathSpec(t)
      case Err(e) => Err(e)
      case Ok(elements) => Ok(PathItem(FromElements(Rename(elements, Some(Root(schema))))))
  }

  /** The first `n` projected items renamed, as `map` builds them; the first
      item that does not parse throws. */
  function RenameAll(items: seq<Projected>, n: nat, schema: Schema): (r: Result<seq<Projected>>)
    requires n <= |items|
    ensures r.Ok? ==> |r.value| == n && forall i :: 0 <= i < n ==> r.value[i].PathItem?
    decreases n
  {
    if n == 0 then Ok([])
    else
      match RenameAll(items, n - 1, schema)
      case Err(e) => Err(e)
      case Ok(paths) =>
        match RenameItem(items[n - 1], schema)
        case Err(e) => Err(e)
        case Ok(p) => Ok(paths + [p])
  }

  /** The expression and the names serialising `paths` into a fresh context
      give; paths alone never fail. */
  function SerializePaths(paths: seq<Projected>): (r: (string, map<string, string>))
    requires forall i :: 0 <= i < |paths| ==> paths[i].PathItem?
  {
    PathsNeverFail(Empty<AttributeValue>(), paths);
    var (expr, st) := SerializeProjectionSpec(Empty<AttributeValue>(), paths);
    (expr.value, st.names)
  }

  /** `convertBatchGetOptions(options, itemSchema)`. */
  function ConvertSpec(options: BatchGetTableOptions, itemSchema: Schema): (r: Result<TableOptions>)
    ensures r.Ok? ==> (r.value.consistentRead == Some(true) <==> options.readConsistency == Some("strong"))
    ensures r.Ok? ==> r.value.consistentRead != Some(false)
    ensures r.Ok? ==> (r.value.projectionExpression.Some? <==> options.projection.Some?)
    ensures r.Ok? ==> (r.value.expressionAttributeNames.Some? <==> options.projection.Some?)
    ensures options.projection.None? ==> r.Ok?
  {
    var consistentRead := if options.readConsistency == Some("strong") then Some(true) else None;
    if options.projection.None? then Ok(TableOptions(consistentRead, None, None))
    else
      var items := options.projection.value;
      match RenameAll(items, |items|, options.projectionSchema.GetOr(itemSchema))
      case Err(e) => Err(e)
      case Ok(paths) =>
        var (expr, names) := SerializePaths(paths);
        Ok(TableOptions(consistentRead, Some(expr), Some(names)))
  }

  method ConvertBatchGetOptions(options: BatchGetTableOptions, itemSchema: Schema) returns (r: Result<TableOptions>)
    ensures r == ConvertSpec(options, itemSchema)
  {
    var consistentRead: Option<bool> := None;
    if options.readConsistency == Some("strong") {
      consistentRead := Some(true);
    }
    if options.projection.None? {
      return Ok(TableOptions(consistentRead, None, None));
    }
    var attributes := new ExpressionAttributes<AttributeValue>();
    var schema := options.projectionSchema.GetOr(itemSchema);
    var items := options.projection.value;
    var paths: seq<Projected> := [];
    var i := 0;
    while i < |items|
      invariant 0 <= i <= |items|
      invariant RenameAll(items, i, schema) == Ok(paths)
      invariant attributes.State() == Empty() && attributes.Valid()
    {
      match items[i] {
        case PathItem(p) =>
          var renamed := ToSchemaName(p, schema);
          paths := paths + [PathItem(renamed)];
        case StringItem(t) =>
          var renamed := ToSchemaNameString(t, schema);
          if renamed.Err? {
            RenameErrSticky(items, i + 1, |items|, schema);
            return Err(renamed.error);
          }
          paths := paths + [PathItem(renamed.value)];
      }
      i := i + 1;
    }
    var expression := SerializeProjection(paths, attributes);
    PathsNeverFail(Empty<AttributeValue>(), paths);
    r := Ok(TableOptions(consistentRead, Some(expression.value), Some(attributes.names)));
  }

  lemma {:induction false} RenameErrSticky(items: seq<Projected>, m: nat, n: nat, schema: Schema)
    requires m <= n <= |items|
    requires RenameAll(items, m, schema).Err?
    ensures RenameAll(items, n, schema) == RenameAll(items, m, schema)
    decreases n
  {
    if n > m {
      RenameErrSticky(items, m, n - 1, schema);
    }
  }

  /** Serialising paths (no strings) never fails. */
  lemma {:induction false} PathsNeverFail<V>(st: AttrState<V>, paths: seq<Projected>)
    requires forall i :: 0 <= i < |paths| ==> paths[i].PathItem?
    ensures EntriesSpec(st, paths).0.Ok?
    decreases |paths|
  {
    if |paths| > 0 {
      PathsNeverFail(st, paths[..|paths| - 1]);
    }
  }

  /** Renaming fails exactly when some string item does not parse, and then
      with the error of the first such item. */
  lemma {:induction false} RenameAllError(items: seq<Projected>, n: nat, schema: Schema)
    requires n <= |items|
    ensures RenameAll(items, n, schema).Err? <==>
      exists i :: 0 <= i < n && items[i].StringItem? && ParsePathSpec(items[i].text).Err?
    ensures RenameAll(items, n, schema).Err? ==>
      exists i :: 0 <= i < n && items[i].StringItem? && ParsePathSpec(items[i].text).Err?
        && (forall j :: 0 <= j < i ==> RenameItem(items[j], schema).Ok?)
        && RenameAll(items, n, schema).error == ParsePathSpec(items[i].text).error
    decreases n
  {
    if n > 0 {
      RenameAllError(items, n - 1, schema);
      var prev := RenameAll(items, n - 1, schema);
      if prev.Err? {
        var i :| 0 <= i < n - 1 && items[i].StringItem? && ParsePathSpec(items[i].text).Err?
          && (forall j :: 0 <= j < i ==> RenameItem(items[j], schema).Ok?)
          && prev.error == ParsePathSpec(items[i].text).error;
        assert RenameAll(items, n, schema) == prev;
      } else {
        forall j | 0 <= j < n - 1
          ensures RenameItem(items[j], schema).Ok?
        {
          assert !(items[j].StringItem? && ParsePathSpec(items[j].text).Err?);
        }
      }
    }
  }

  /** Each renamed item is the schema's renaming of the item's path. */
  lemma {:induction false} RenameAllPaths(items: seq<Projected>, n: nat, schema: Schema)
    requires n <= |items|
    requires RenameAll(items, n, schema).Ok?
    ensures forall i :: 0 <= i < n && items[i].PathItem? ==>
      RenameAll(items, n, schema).value[i].path.elements == Rename(items[i].path.elements, Some(Root(schema)))
    ensures forall i :: 0 <= i < n && items[i].StringItem? ==>
      ParsePathSpec(items[i].text).Ok? &&
      RenameAll(items, n, schema).value[i].path.elements == Rename(ParsePathSpec(items[i].text).value, Some(Root(schema)))
    decreases n
  {
    if n > 0 {
      RenameAllPaths(items, n - 1, schema);
    }
  }

  /** The conversion throws exactly when a projection is given and one of its
      strings does not parse. */
  lemma ConvertError(options: BatchGetTableOptions, itemSchema: Schema)
    ensures ConvertSpec(options, itemSchema).Err? <==>
      options.projection.Some? &&
      exists i :: 0 <= i < |options.projection.value| && options.projection.value[i].StringItem?
                  && ParsePathSpec(options.projection.value[i].text).Err?
  {
    if options.projection.Some? {
      var items := options.projection.value;
      RenameAllError(items, |items|, options.projectionSchema.GetOr(itemSchema));
    }
  }

  /** With a projection schema, the item's own schema plays no part. */
  lemma ProjectionSchemaWins(options: BatchGetTableOptions, a: Schema, b: Schema)
    requires options.projectionSchema.Some?
    ensures ConvertSpec(options, a) == ConvertSpec(options, b)
  {
  }

  /** The expression has one entry per projected item, in order, each the
      placeholders of the renamed path, joined by ", ". */
  lemma ConvertExpression(options: BatchGetTableOptions, itemSchema: Schema)
    requires options.projection.Some?
    requires ConvertSpec(options, itemSchema).Ok?
    ensures var items := options.projection.value;
      var paths := RenameAll(items, |items|, options.projectionSchema.GetOr(itemSchema)).value;
      var entries := EntriesSpec(Empty<AttributeValue>(), paths).0;
      && entries.Ok?
      && |entries.value| == |items|
      && ConvertSpec(options, itemSchema).value.projectionExpression == Some(Join(entries.value, ", "))
  {
    var items := options.projection.value;
    var paths := RenameAll(items, |items|, options.projectionSchema.GetOr(itemSchema)).value;
    PathsNeverFail(Empty<AttributeValue>(), paths);
  }

  // ---------------------------------------------------------------------------
  // The batch state: per table, its key properties and the schema of each
  // item identifier submitted

  /** What the batch remembers of one table. */
  datatype TableState = TableState(keyProperties: seq<string>, itemSchemata: map<string, Schema>)

  /** What destructuring the state of a table the batch never saw throws. */
  const UnknownTableError := "TypeError: Cannot destructure 'state[tableName]' as it is undefined."
  /** What destructuring the schema of an identifier the batch never saw throws. */
  const UnknownItemError := "TypeError: Cannot destructure 'itemSchemata[itemIdentifier(...)]' as it is undefined."

  /** The tables with `tableName` present: a table seen for the first time
      starts with the key properties of `schema` and no items. */
  function WithTable(tables: map<string, TableState>, tableName: string, schema: Schema)
    : (r: map<string, TableState>)
    ensures tableName in r
    ensures tableName in tables ==> r == tables
    ensures tableName !in tables ==> r[tableName] == TableState(KeyPropertiesSpec(schema), map[])
    ensures r.Keys == tables.Keys + {tableName}
    ensures forall t :: t in tables ==> r[t] == tables[t]
  {
    if tableName in tables then tables
    else tables[tableName := TableState(KeyPropertiesSpec(schema), map[])]
  }

  /** The tables with `schema` recorded under `id` in table `tableName`. */
  function Record(tables: map<string, TableState>, tableName: string, id: string, schema: Schema)
    : (r: map<string, TableState>)
    requires tableName in tables
    ensures r.Keys == tables.Keys
    ensures r[tableName].keyProperties == tables[tableName].keyProperties
    ensures r[tableName].itemSchemata == tables[tableName].itemSchemata[id := schema]
    ensures forall t :: t in tables && t != tableName ==> r[t] == tables[t]
  {
    tables[tableName := tables[tableName].(itemSchemata := tables[tableName].itemSchemata[id := schema])]
  }

  /** The schema the consumer of a batch finds for `attributes` returned for
      `tableName`: the table's state, then the item identifier computed with
      the table's key properties; each missing step throws. */
  function Lookup(tables: map<string, TableState>, tableName: string, attributes: AttributeMap)
    : (r: Result<Schema>)
    ensures r.Ok? <==>
      tableName in tables
      && MapperIdentifierSpec(attributes, tables[tableName].keyProperties).Ok?
      && MapperIdentifierSpec(attributes, tables[tableName].keyProperties).value in tables[tableName].itemSchemata
    ensures r.Ok? ==>
      r.value == tables[tableName].itemSchemata[MapperIdentifierSpec(attributes, tables[tableName].keyProperties).value]
  {
    if tableName !in tables then Err(UnknownTableError)
    else
      var table := tables[tableName];
      match MapperIdentifierSpec(attributes, table.keyProperties)
      case Err(e) => Err(e)
      case Ok(id) =>
        if id in table.itemSchemata then Ok(table.itemSchemata[id]) else Err(UnknownItemError)
  }

  /** The state of the batch, which the mapping generator fills in and the
      consumer of the batch reads. */
  class BatchState {
    var tables: map<string, TableState>

    constructor()
      ensures tables == map[]
    {
      tables := map[];
    }
  }

  /** The converted per-table options of a batch get, filled in as tables
      with options are first seen. */
  class PerTableOptions {
    var options: map<string, TableOptions>

    constructor()
      ensures options == map[]
    {
      options := map[];
    }
  }

  // ---------------------------------------------------------------------------
  // Resolving what a batch returns

  /** Whether two yielded entries name the same table, which the state knows,
      and have the same item identifier under its key properties. */
  ghost predicate SameItem(tables: map<string, TableState>, a: (string, AttributeMap), b: (string, AttributeMap))
  {
    a.0 == b.0 && a.0 in tables
    && MapperIdentifierSpec(a.1, tables[a.0].keyProperties) == MapperIdentifierSpec(b.1, tables[a.0].keyProperties)
  }

  /** Whether a later entry than the `i`th records its schema under the same
      table and identifier. */
  ghost predicate Overwritten(tables: map<string, TableState>, entries: seq<(string, AttributeMap)>, i: nat)
    requires i < |entries|
  {
    exists j :: i < j < |entries| && SameItem(tables, entries[j], entries[i])
  }

  /** Every entry resolves through the state, to the schema it was submitted
      with unless a later entry with the same identifier replaced it. */
  ghost predicate Resolves(tables: map<string, TableState>, entries: seq<(string, AttributeMap)>, schemas: seq<Schema>)
  {
    && |entries| <= |schemas|
    && forall i :: 0 <= i < |entries| ==>
      && Lookup(tables, entries[i].0, entries[i].1).Ok?
      && (!Overwritten(tables, entries, i) ==> Lookup(tables, entries[i].0, entries[i].1).value == schemas[i])
  }

  /** Adding a table leaves the lookups of the tables already there alone. */
  lemma WithTableKeepsLookups(tables: map<string, TableState>, tableName: string, schema: Schema,
                              entries: seq<(string, AttributeMap)>, schemas: seq<Schema>)
    requires |entries| <= |schemas|
    requires Resolves(tables, entries, schemas)
    ensures Resolves(WithTable(tables, tableName, schema), entries, schemas)
  {
    var tables' := WithTable(tables, tableName, schema);
    forall i | 0 <= i < |entries|
      ensures Lookup(tables', entries[i].0, entries[i].1) == Lookup(tables, entries[i].0, entries[i].1)
      ensures Overwritten(tables', entries, i) == Overwritten(tables, entries, i)
    {
      assert entries[i].0 in tables;
      if Overwritten(tables', entries, i) {
        var j :| i < j < |entries| && SameItem(tables', entries[j], entries[i]);
        assert SameItem(tables, entries[j], entries[i]);
      }
      if Overwritten(tables, entries, i) {
        var j :| i < j < |entries| && SameItem(tables, entries[j], entries[i]);
        assert SameItem(tables', entries[j], entries[i]);
      }
    }
  }

  /** Recording an entry's schema under its identifier keeps every earlier
      entry resolvable and makes the new one resolve to its schema. */
  lemma RecordResolves(tables: map<string, TableState>, entries: seq<(string, AttributeMap)>, schemas: seq<Schema>,
                       entry: (string, AttributeMap), schema: Schema)
    requires |entries| < |schemas| && schemas[|entries|] == schema
    requires Resolves(tables, entries, schemas)
    requires entry.0 in tables && MapperIdentifierSpec(entry.1, tables[entry.0].keyProperties).Ok?
    ensures Resolves(Record(tables, entry.0, MapperIdentifierSpec(entry.1, tables[entry.0].keyProperties).value, schema),
                     entries + [entry], schemas)
  {
    var id := MapperIdentifierSpec(entry.1, tables[entry.0].keyProperties).value;
    var tables' := Record(tables, entry.0, id, schema);
    var entries' := entries + [entry];
    forall i | 0 <= i < |entries'|
      ensures Lookup(tables', entries'[i].0, entries'[i].1).Ok?
      ensures !Overwritten(tables', entries', i) ==> Lookup(tables', entries'[i].0, entries'[i].1).value == schemas[i]
    {
      if i == |entries| {
        assert Lookup(tables', entry.0, entry.1) == Ok(schema);
      } else {
        var e := entries[i];
        assert entries'[i] == e;
        assert e.0 in tables;
        var sameAsNew := SameItem(tables, entry, e);
        if !Overwritten(tables', entries', i) {
          assert !sameAsNew by {
            if sameAsNew {
              assert SameItem(tables', entries'[|entries|], entries'[i]);
            }
          }
          assert !Overwritten(tables, entries, i) by {
            if Overwritten(tables, entries, i) {
              var j :| i < j < |entries| && SameItem(tables, entries[j], entries[i]);
              assert SameItem(tables', entries'[j], entries'[i]);
            }
          }
        }
      }
    }
  }

  // ---------------------------------------------------------------------------
  // mapGetBatch

  /** An item to get: its own (unprefixed) table name, its schema and its
      value. */
  datatype GetItem = GetItem(tableName: string, schema: Schema, value: JsValue)

  /** What the loop computes from one item on its own: the prefixed table
      name, the schema, the conversion of its table's options when it has
      any, and its marshalled key. */
  datatype GetInput = GetInput(
    tableName: string,
    schema: Schema,
    conversion: Option<Result<TableOptions>>,
    marshalled: Result<AttributeMap>)

  function GetInputOf(host: DM.Host, prefix: string, options: map<string, BatchGetTableOptions>, item: GetItem)
    : (r: GetInput)
    ensures r.tableName == prefix + item.tableName && r.schema == item.schema
    ensures r.conversion.Some? <==> item.tableName in options
    ensures r.conversion.Some? ==> r.conversion.value == ConvertSpec(options[item.tableName], item.schema)
    ensures r.marshalled == MK.KeyFold(host, item.schema, item.value, None)
  {
    GetInput(
      prefix + item.tableName,
      item.schema,
      if item.tableName in options then Some(ConvertSpec(options[item.tableName], item.schema)) else None,
      MK.KeyFold(host, item.schema, item.value, None))
  }

  function GetInputs(host: DM.Host, prefix: string, options: map<string, BatchGetTableOptions>, items: seq<GetItem>)
    : (r: seq<GetInput>)
    ensures |r| == |items|
    ensures forall i :: 0 <= i < |items| ==> r[i] == GetInputOf(host, prefix, options, items[i])
  {
    seq(|items|, i requires 0 <= i < |items| => GetInputOf(host, prefix, options, items[i]))
  }

  /** Where the get generator is: what it has yielded, the state and the
      converted options so far, and the error it threw, if any. */
  datatype GetRun = GetRun(
    yielded: seq<(string, AttributeMap)>,
    tables: map<string, TableState>,
    converted: map<string, TableOptions>,
    failure: Option<string>)

  /** One turn of the get generator's loop: convert the table's options the
      first time they are met, make sure the table has a state, marshall the
      key, record the item's schema under its identifier and yield. */
  function GetStep(run: GetRun, input: GetInput): GetRun
  {
    var tableName := input.tableName;
    var convert := input.conversion.Some? && tableName !in run.converted;
    if convert && input.conversion.value.Err? then run.(failure := Some(input.conversion.value.error))
    else
      var converted := if convert then run.converted[tableName := input.conversion.value.value] else run.converted;
      var tables := WithTable(run.tables, tableName, input.schema);
      match input.marshalled
      case Err(e) => GetRun(run.yielded, tables, converted, Some(e))
      case Ok(marshalled) =>
        match MapperIdentifierSpec(marshalled, tables[tableName].keyProperties)
        case Err(e) => GetRun(run.yielded, tables, converted, Some(e))
        case Ok(id) => GetRun(run.yielded + [(tableName, marshalled)], Record(tables, tableName, id, input.schema), converted, None)
  }

  /** The get generator run over the first `n` items; it stops at the first
      error it throws. */
  function GetFold(inputs: seq<GetInput>, n: nat, tables: map<string, TableState>,
                   converted: map<string, TableOptions>): (r: GetRun)
    requires n <= |inputs|
    decreases n, 1
  {
    if n == 0 then GetRun([], tables, converted, None)
    else GetTurn(inputs, n, tables, converted)
  }

  /** The `n`th turn of the get generator: nothing once it has thrown. */
  function GetTurn(inputs: seq<GetInput>, n: nat, tables: map<string, TableState>,
                   converted: map<string, TableOptions>): GetRun
    requires 0 < n <= |inputs|
    decreases n, 0
  {
    var prev := GetFold(inputs, n - 1, tables, converted);
    if prev.failure.Some? then prev else GetStep(prev, inputs[n - 1])
  }

  /** One turn of `mapGetBatch`'s loop on the state and the converted
      options: the item's entry when it is yielded, or the error thrown. */
  method MapGetItem(host: DM.Host, prefix: string, item: GetItem, state: BatchState,
                    options: map<string, BatchGetTableOptions>, convertedOptions: PerTableOptions,
                    yielded: seq<(string, AttributeMap)>)
    returns (yielded': seq<(string, AttributeMap)>, failure: Option<string>)
    modifies state, convertedOptions
    ensures GetStep(GetRun(yielded, old(state.tables), old(convertedOptions.options), None),
                    GetInputOf(host, prefix, options, item))
      == GetRun(yielded', state.tables, convertedOptions.options, failure)
  {
    var tables := state.tables;
    var converted := convertedOptions.options;
    yielded' := yielded;
    var tableName := prefix + item.tableName;
    if item.tableName in options && tableName !in converted {
      var conversion := ConvertBatchGetOptions(options[item.tableName], item.schema);
      if conversion.Err? {
        failure := Some(conversion.error);
        return;
      }
      converted := converted[tableName := conversion.value];
      convertedOptions.options := converted;
    }
    if tableName !in tables {
      var keyProperties := GetKeyProperties(item.schema);
      tables := tables[tableName := TableState(keyProperties, map[])];
      state.tables := tables;
    }
    var keyProperties := tables[tableName].keyProperties;
    var marshalled := MK.MarshallKey(host, item.schema, item.value, None);
    if marshalled.Err? {
      failure := Some(marshalled.error);
      return;
    }
    var id := MapperItemIdentifier(marshalled.value, keyProperties);
    if id.Err? {
      failure := Some(id.error);
      return;
    }
    state.tables := Record(tables, tableName, id.value, item.schema);
    yielded' := yielded + [(tableName, marshalled.value)];
    failure := None;
  }

  /** `mapGetBatch`, run to its end or to the first error it throws: the
      state and the converted options are updated in place. */
  method MapGetBatch(host: DM.Host, prefix: string, items: seq<GetItem>, state: BatchState,
                     options: map<string, BatchGetTableOptions>, convertedOptions: PerTableOptions)
    returns (yielded: seq<(string, AttributeMap)>, failure: Option<string>)
    modifies state, convertedOptions
    ensures GetFold(GetInputs(host, prefix, options, items), |items|, old(state.tables), old(convertedOptions.options))
      == GetRun(yielded, state.tables, convertedOptions.options, failure)
  {
    ghost var inputs := GetInputs(host, prefix, options, items);
    ghost var tables0 := state.tables;
    ghost var converted0 := convertedOptions.options;
    yielded := [];
    failure := None;
    var i := 0;
    while i < |items|
      invariant 0 <= i <= |items|
      invariant failure.None?
      invariant GetFold(inputs, i, tables0, converted0) == GetRun(yielded, state.tables, convertedOptions.options, failure)
    {
      yielded, failure := MapGetItem(host, prefix, items[i], state, options, convertedOptions, yielded);
      assert GetFold(inputs, i + 1, tables0, converted0) == GetTurn(inputs, i + 1, tables0, converted0);
      if failure.Some? {
        GetStops(inputs, i + 1, tables0, converted0);
        return;
      }
      i := i + 1;
    }
  }

  /** Once the get generator has thrown, the later items change nothing. */
  lemma {:induction false} GetStops(inputs: seq<GetInput>, m: nat, tables: map<string, TableState>,
                                    converted: map<string, TableOptions>)
    requires m <= |inputs|
    requires GetFold(inputs, m, tables, converted).failure.Some?
    ensures forall n :: m <= n <= |inputs| ==> GetFold(inputs, n, tables, converted) == GetFold(inputs, m, tables, converted)
  {
    var n := m;
    while n < |inputs|
      invariant m <= n <= |inputs|
      invariant forall k :: m <= k <= n ==> GetFold(inputs, k, tables, converted) == GetFold(inputs, m, tables, converted)
    {
      assert GetFold(inputs, n + 1, tables, converted) == GetTurn(inputs, n + 1, tables, converted);
      n := n + 1;
    }
  }

  /** The schemas of the items, in order. */
  function GetSchemas(inputs: seq<GetInput>): (r: seq<Schema>)
    ensures |r| == |inputs| && forall i :: 0 <= i < |inputs| ==> r[i] == inputs[i].schema
  {
    seq(|inputs|, i requires 0 <= i < |inputs| => inputs[i].schema)
  }

  /** One turn yields the item's entry or throws, and keeps what the state
      already holds. */
  lemma GetStepFacts(run: GetRun, input: GetInput)
    ensures var r := GetStep(run, input);
      && (r.failure.None? ==> input.marshalled.Ok? && r.yielded == run.yielded + [(input.tableName, input.marshalled.value)])
      && (r.failure.Some? ==> r.yielded == run.yielded)
      && (forall t :: t in run.tables ==> t in r.tables && r.tables[t].keyProperties == run.tables[t].keyProperties)
      && (forall t :: t in run.converted ==> t in r.converted && r.converted[t] == run.converted[t])
      && (forall t :: t in r.converted ==> t in run.converted || (t == input.tableName && input.conversion.Some?))
      && (r.failure.None? && input.conversion.Some? ==> input.tableName in r.converted)
      && (r.failure.None? && input.conversion.Some? && input.tableName !in run.converted ==>
            input.conversion.value.Ok? && r.converted[input.tableName] == input.conversion.value.value)
  {
  }

  /** One turn yields the item's entry or throws. */
  lemma GetStepYields(run: GetRun, input: GetInput)
    ensures var r := GetStep(run, input);
      && (r.failure.None? ==> input.marshalled.Ok? && r.yielded == run.yielded + [(input.tableName, input.marshalled.value)])
      && (r.failure.Some? ==> r.yielded == run.yielded)
  {
  }

  /** One turn keeps every yielded entry resolvable. */
  lemma GetStepResolves(run: GetRun, input: GetInput, schemas: seq<Schema>)
    requires |run.yielded| < |schemas| && schemas[|run.yielded|] == input.schema
    requires Resolves(run.tables, run.yielded, schemas)
    ensures |GetStep(run, input).yielded| <= |run.yielded| + 1
    ensures Resolves(GetStep(run, input).tables, GetStep(run, input).yielded, schemas)
  {
    var convert := input.conversion.Some? && input.tableName !in run.converted;
    if !(convert && input.conversion.value.Err?) {
      var tables' := WithTable(run.tables, input.tableName, input.schema);
      WithTableKeepsLookups(run.tables, input.tableName, input.schema, run.yielded, schemas);
      if input.marshalled.Ok? && MapperIdentifierSpec(input.marshalled.value, tables'[input.tableName].keyProperties).Ok? {
        RecordResolves(tables', run.yielded, schemas, (input.tableName, input.marshalled.value), input.schema);
      }
    }
  }

  /** The generator yields one entry per item, in order, each the item's
      prefixed table name and marshalled key, until it throws; it throws at
      most once and then stops. */
  lemma GetFoldYields(inputs: seq<GetInput>, n: nat, tables: map<string, TableState>,
                      converted: map<string, TableOptions>)
    requires n <= |inputs|
    ensures var r := GetFold(inputs, n, tables, converted);
      && |r.yielded| <= n
      && (r.failure.None? <==> |r.yielded| == n)
      && forall i :: 0 <= i < |r.yielded| ==>
           inputs[i].marshalled.Ok? && r.yielded[i] == (inputs[i].tableName, inputs[i].marshalled.value)
  {
    GetFoldLength(inputs, n, tables, converted);
    forall i | 0 <= i < |GetFold(inputs, n, tables, converted).yielded|
      ensures inputs[i].marshalled.Ok?
        && GetFold(inputs, n, tables, converted).yielded[i] == (inputs[i].tableName, inputs[i].marshalled.value)
    {
      GetYielded(inputs, n, tables, converted, i);
    }
  }

  /** The get generator yields one entry per turn until it throws. */
  lemma {:induction false} GetFoldLength(inputs: seq<GetInput>, n: nat, tables: map<string, TableState>,
                                         converted: map<string, TableOptions>)
    requires n <= |inputs|
    ensures var r := GetFold(inputs, n, tables, converted);
      |r.yielded| <= n && (r.failure.None? <==> |r.yielded| == n)
    decreases n
  {
    if n > 0 {
      GetFoldLength(inputs, n - 1, tables, converted);
      var prev := GetFold(inputs, n - 1, tables, converted);
      assert GetFold(inputs, n, tables, converted) == GetTurn(inputs, n, tables, converted);
      if prev.failure.None? {
        GetStepYields(prev, inputs[n - 1]);
      }
    }
  }

  /** The `i`th entry yielded is the `i`th item's. */
  lemma {:induction false} GetYielded(inputs: seq<GetInput>, n: nat, tables: map<string, TableState>,
                                      converted: map<string, TableOptions>, i: nat)
    requires i < n <= |inputs| && i < |GetFold(inputs, n, tables, converted).yielded|
    ensures inputs[i].marshalled.Ok?
    ensures GetFold(inputs, n, tables, converted).yielded[i] == (inputs[i].tableName, inputs[i].marshalled.value)
    decreases n
  {
    var prev := GetFold(inputs, n - 1, tables, converted);
    var r := GetFold(inputs, n, tables, converted);
    GetFoldLength(inputs, n - 1, tables, converted);
    GetTurnYields(inputs, n, tables, converted);
    if i < |prev.yielded| {
      GetYielded(inputs, n - 1, tables, converted, i);
      assert r.yielded[i] == prev.yielded[i];
    } else {
      assert prev.failure.None? && r.failure.None?;
      assert i == n - 1 == |prev.yielded|;
    }
  }

  /** One turn of the get generator: nothing after it has thrown, else the
      entry of the item or an error. */
  lemma GetTurnYields(inputs: seq<GetInput>, n: nat, tables: map<string, TableState>,
                      converted: map<string, TableOptions>)
    requires 0 < n <= |inputs|
    ensures var prev := GetFold(inputs, n - 1, tables, converted); var r := GetFold(inputs, n, tables, converted);
      && (prev.failure.Some? ==> r == prev)
      && (prev.failure.None? && r.failure.None? ==>
            inputs[n - 1].marshalled.Ok? && r.yielded == prev.yielded + [(inputs[n - 1].tableName, inputs[n - 1].marshalled.value)])
      && (prev.failure.None? && r.failure.Some? ==> r.yielded == prev.yielded)
  {
    var prev := GetFold(inputs, n - 1, tables, converted);
    assert GetFold(inputs, n, tables, converted) == GetTurn(inputs, n, tables, converted);
    GetStepYields(prev, inputs[n - 1]);
  }

  /** The state only grows: no table is dropped, no table's key properties
      change, and options once converted stay as they were. */
  lemma {:induction false} GetFoldGrows(inputs: seq<GetInput>, n: nat, tables: map<string, TableState>,
                                        converted: map<string, TableOptions>)
    requires n <= |inputs|
    ensures var r := GetFold(inputs, n, tables, converted);
      && (forall t :: t in tables ==> t in r.tables && r.tables[t].keyProperties == tables[t].keyProperties)
      && (forall t :: t in converted ==> t in r.converted && r.converted[t] == converted[t])
    decreases n
  {
    if n > 0 {
      GetFoldGrows(inputs, n - 1, tables, converted);
      var prev := GetFold(inputs, n - 1, tables, converted);
      if prev.failure.None? {
        GetStepFacts(prev, inputs[n - 1]);
      }
    }
  }

  /** Each yielded entry resolves through the final state, to its own item's
      schema unless a later item of the same table has the same identifier. */
  lemma {:induction false} GetFoldResolves(inputs: seq<GetInput>, n: nat, tables: map<string, TableState>,
                                           converted: map<string, TableOptions>)
    requires n <= |inputs|
    ensures var r := GetFold(inputs, n, tables, converted);
      |r.yielded| <= n && Resolves(r.tables, r.yielded, GetSchemas(inputs))
    decreases n
  {
    if n > 0 {
      GetFoldResolves(inputs, n - 1, tables, converted);
      var prev := GetFold(inputs, n - 1, tables, converted);
      if prev.failure.None? {
        GetFoldYields(inputs, n - 1, tables, converted);
        GetStepResolves(prev, inputs[n - 1], GetSchemas(inputs));
      }
    }
  }

  /** Whether no item before the `i`th has the same table and options. */
  predicate FirstWithOptions(inputs: seq<GetInput>, i: nat)
    requires i < |inputs|
  {
    forall j :: 0 <= j < i && inputs[j].tableName == inputs[i].tableName ==> inputs[j].conversion.None?
  }

  /** Only tables some item has options for get converted options. */
  lemma {:induction false} GetFoldConvertedTables(inputs: seq<GetInput>, n: nat, tables: map<string, TableState>,
                                                  converted: map<string, TableOptions>)
    requires n <= |inputs|
    ensures forall t :: t in GetFold(inputs, n, tables, converted).converted ==>
      t in converted || exists j :: 0 <= j < n && inputs[j].tableName == t && inputs[j].conversion.Some?
    decreases n
  {
    if n > 0 {
      GetFoldConvertedTables(inputs, n - 1, tables, converted);
      var prev := GetFold(inputs, n - 1, tables, converted);
      assert GetFold(inputs, n, tables, converted) == GetTurn(inputs, n, tables, converted);
      if prev.failure.None? {
        GetStepFacts(prev, inputs[n - 1]);
        forall t | t in GetStep(prev, inputs[n - 1]).converted
          ensures t in converted || exists j :: 0 <= j < n && inputs[j].tableName == t && inputs[j].conversion.Some?
        {
          if t !in prev.converted {
            assert inputs[n - 1].tableName == t && inputs[n - 1].conversion.Some?;
          }
        }
      }
    }
  }

  /** Every yielded item with options has its table's options converted,
      from that item itself when it is the table's first with options and
      the table had none converted before. */
  ghost predicate ConvertedOnce(inputs: seq<GetInput>, converted: map<string, TableOptions>, run: GetRun)
    requires |run.yielded| <= |inputs|
  {
    && (forall i :: 0 <= i < |run.yielded| && inputs[i].conversion.Some? ==> inputs[i].tableName in run.converted)
    && (forall i :: 0 <= i < |run.yielded| && inputs[i].conversion.Some? && inputs[i].tableName !in converted
          && FirstWithOptions(inputs, i)
          ==> inputs[i].conversion.value.Ok? && run.converted[inputs[i].tableName] == inputs[i].conversion.value.value)
  }

  lemma ConvertedOnceStep(inputs: seq<GetInput>, converted: map<string, TableOptions>, prev: GetRun)
    requires |prev.yielded| < |inputs|
    requires ConvertedOnce(inputs, converted, prev)
    requires forall t :: t in prev.converted ==>
      t in converted || exists j :: 0 <= j < |prev.yielded| && inputs[j].tableName == t && inputs[j].conversion.Some?
    ensures |GetStep(prev, inputs[|prev.yielded|]).yielded| <= |inputs|
    ensures ConvertedOnce(inputs, converted, GetStep(prev, inputs[|prev.yielded|]))
  {
    var k := |prev.yielded|;
    var input := inputs[k];
    GetStepFacts(prev, input);
    var r := GetStep(prev, input);
    assert |r.yielded| <= k + 1;
    assert |r.yielded| == k + 1 ==> r.failure.None?;
    forall i | 0 <= i < |r.yielded| && inputs[i].conversion.Some?
      ensures inputs[i].tableName in r.converted
    {
      if i < k {
        assert inputs[i].tableName in prev.converted;
      } else {
        assert i == k && r.failure.None?;
      }
    }
    forall i | 0 <= i < |r.yielded| && inputs[i].conversion.Some? && inputs[i].tableName !in converted
        && FirstWithOptions(inputs, i)
      ensures inputs[i].conversion.value.Ok? && r.converted[inputs[i].tableName] == inputs[i].conversion.value.value
    {
      if i < k {
        assert inputs[i].tableName in prev.converted;
      } else {
        assert i == k && r.failure.None?;
        assert input.tableName !in prev.converted;
      }
    }
  }

  /** The options of a table are converted once, with the schema of the
      first of its items the generator meets, and stay converted. */
  lemma {:induction false} GetFoldConvertsOnce(inputs: seq<GetInput>, n: nat, tables: map<string, TableState>,
                                               converted: map<string, TableOptions>)
    requires n <= |inputs|
    ensures var r := GetFold(inputs, n, tables, converted);
      |r.yielded| <= n && ConvertedOnce(inputs, converted, r)
    decreases n
  {
    GetFoldYields(inputs, n, tables, converted);
    if n > 0 {
      GetFoldConvertsOnce(inputs, n - 1, tables, converted);
      var prev := GetFold(inputs, n - 1, tables, converted);
      assert GetFold(inputs, n, tables, converted) == GetTurn(inputs, n, tables, converted);
      if prev.failure.None? {
        GetFoldYields(inputs, n - 1, tables, converted);
        GetFoldConvertedTables(inputs, n - 1, tables, converted);
        ConvertedOnceStep(inputs, converted, prev);
      }
    }
  }

  // ---------------------------------------------------------------------------
  // What batchGet does with the items the batch returns

  /** What `batchGet` yields for the attributes the batch returns for a
      table: the item unmarshalled with the schema recorded for its
      identifier. */
  function BatchGetResult(tables: map<string, TableState>, tableName: string, marshalled: AttributeMap)
    : (r: Result<seq<(string, JsValue)>>)
    ensures Lookup(tables, tableName, marshalled).Err? ==> r == Err(Lookup(tables, tableName, marshalled).error)
  {
    match Lookup(tables, tableName, marshalled)
    case Err(e) => Err(e)
    case Ok(schema) => DU.UnmarshallItemSpec(schema, marshalled)
  }

  /** An item the batch returns for a yielded key is matched with that key's
      schema as long as it agrees with the key on the table's key
      properties, whatever else it holds. */
  lemma ReturnedItemResolves(tables: map<string, TableState>, yielded: seq<(string, AttributeMap)>, schemas: seq<Schema>,
                             i: nat, returned: AttributeMap)
    requires |yielded| <= |schemas| && i < |yielded|
    requires Resolves(tables, yielded, schemas)
    requires yielded[i].0 in tables
    requires forall k :: k in tables[yielded[i].0].keyProperties ==> Get(returned, k) == Get(yielded[i].1, k)
    ensures Lookup(tables, yielded[i].0, returned).Ok?
    ensures !Overwritten(tables, yielded, i) ==>
      BatchGetResult(tables, yielded[i].0, returned) == DU.UnmarshallItemSpec(schemas[i], returned)
  {
    IdentifierDependsOnKeysOnly(returned, yielded[i].1, tables[yielded[i].0].keyProperties);
  }

  // ---------------------------------------------------------------------------
  // mapWriteBatch

  datatype WriteType = PutWrite | DeleteWrite

  /** An item to write: whether to put or delete it, its own (unprefixed)
      table name, its schema and its value. */
  datatype WriteItem = WriteItem(kind: WriteType, tableName: string, schema: Schema, value: JsValue)

  datatype WriteRequest = DeleteRequest(key: AttributeMap) | PutRequest(item: AttributeMap)

  /** The attributes `batchWrite` reads back from a request: the item of a
      put, the key of a delete. */
  function RequestAttributes(request: WriteRequest): (r: AttributeMap)
    ensures request == (if request.PutRequest? then PutRequest(r) else DeleteRequest(r))
  {
    match request
    case PutRequest(item) => item
    case DeleteRequest(key) => key
  }

  /** The request for a write of `kind` with `attributes`. */
  function RequestOf(kind: WriteType, attributes: AttributeMap): (r: WriteRequest)
    ensures RequestAttributes(r) == attributes
    ensures r.PutRequest? <==> kind == PutWrite
  {
    match kind
    case DeleteWrite => DeleteRequest(attributes)
    case PutWrite => PutRequest(attributes)
  }

  /** What the loop computes from one item on its own: the prefixed table
      name, the schema, the kind of write, and the marshalled key of a delete
      or the marshalled item of a put. */
  datatype WriteInput = WriteInput(kind: WriteType, tableName: string, schema: Schema, attributes: Result<AttributeMap>)

  function WriteInputOf(host: DM.Host, prefix: string, item: WriteItem): (r: WriteInput)
    ensures r.kind == item.kind && r.tableName == prefix + item.tableName && r.schema == item.schema
    ensures item.kind == DeleteWrite ==> r.attributes == MK.KeyFold(host, item.schema, item.value, None)
    ensures item.kind == PutWrite ==> r.attributes == DM.MarshallItemSpec(host, item.schema, item.value)
  {
    WriteInput(
      item.kind,
      prefix + item.tableName,
      item.schema,
      if item.kind == DeleteWrite then MK.KeyFold(host, item.schema, item.value, None)
      else DM.MarshallItemSpec(host, item.schema, item.value))
  }

  function WriteInputs(host: DM.Host, prefix: string, items: seq<WriteItem>): (r: seq<WriteInput>)
    ensures |r| == |items|
    ensures forall i :: 0 <= i < |items| ==> r[i] == WriteInputOf(host, prefix, items[i])
  {
    seq(|items|, i requires 0 <= i < |items| => WriteInputOf(host, prefix, items[i]))
  }

  /** Where the write generator is: what it has yielded, the state so far,
      and the error it threw, if any. */
  datatype WriteRun = WriteRun(
    yielded: seq<(string, WriteRequest)>,
    tables: map<string, TableState>,
    failure: Option<string>)

  /** One turn of the write generator's loop: make sure the table has a
      state, record the item's schema under the identifier of its
      attributes, and yield the request. */
  function WriteStep(run: WriteRun, input: WriteInput): WriteRun
  {
    var tableName := input.tableName;
    var tables := WithTable(run.tables, tableName, input.schema);
    match input.attributes
    case Err(e) => WriteRun(run.yielded, tables, Some(e))
    case Ok(attributes) =>
      match MapperIdentifierSpec(attributes, tables[tableName].keyProperties)
      case Err(e) => WriteRun(run.yielded, tables, Some(e))
      case Ok(id) =>
        WriteRun(run.yielded + [(tableName, RequestOf(input.kind, attributes))],
                 Record(tables, tableName, id, input.schema), None)
  }

  /** The write generator run over the first `n` items; it stops at the
      first error it throws. */
  function WriteFold(inputs: seq<WriteInput>, n: nat, tables: map<string, TableState>): WriteRun
    requires n <= |inputs|
    decreases n, 1
  {
    if n == 0 then WriteRun([], tables, None)
    else WriteTurn(inputs, n, tables)
  }

  /** The `n`th turn of the write generator: nothing once it has thrown. */
  function WriteTurn(inputs: seq<WriteInput>, n: nat, tables: map<string, TableState>): WriteRun
    requires 0 < n <= |inputs|
    decreases n, 0
  {
    var prev := WriteFold(inputs, n - 1, tables);
    if prev.failure.Some? then prev else WriteStep(prev, inputs[n - 1])
  }

  /** One turn of `mapWriteBatch`'s loop on the state. */
  method MapWriteItem(host: DM.Host, prefix: string, item: WriteItem, state: BatchState,
                      yielded: seq<(string, WriteRequest)>)
    returns (yielded': seq<(string, WriteRequest)>, failure: Option<string>)
    modifies state
    ensures WriteStep(WriteRun(yielded, old(state.tables), None), WriteInputOf(host, prefix, item))
      == WriteRun(yielded', state.tables, failure)
  {
    var tables := state.tables;
    yielded' := yielded;
    var tableName := prefix + item.tableName;
    if tableName !in tables {
      var keyProperties := GetKeyProperties(item.schema);
      tables := tables[tableName := TableState(keyProperties, map[])];
      state.tables := tables;
    }
    var keyProperties := tables[tableName].keyProperties;
    var attributes;
    if item.kind == DeleteWrite {
      attributes := MK.MarshallKey(host, item.schema, item.value, None);
    } else {
      attributes := DM.MarshallItem(host, item.schema, item.value);
    }
    if attributes.Err? {
      failure := Some(attributes.error);
      return;
    }
    var marshalled := if item.kind == DeleteWrite then DeleteRequest(attributes.value) else PutRequest(attributes.value);
    var id := MapperItemIdentifier(attributes.value, keyProperties);
    if id.Err? {
      failure := Some(id.error);
      return;
    }
    state.tables := Record(tables, tableName, id.value, item.schema);
    yielded' := yielded + [(tableName, marshalled)];
    failure := None;
  }

  /** `mapWriteBatch`, run to its end or to the first error it throws: the
      state is updated in place. */
  method MapWriteBatch(host: DM.Host, prefix: string, items: seq<WriteItem>, state: BatchState)
    returns (yielded: seq<(string, WriteRequest)>, failure: Option<string>)
    modifies state
    ensures WriteFold(WriteInputs(host, prefix, items), |items|, old(state.tables)) == WriteRun(yielded, state.tables, failure)
  {
    ghost var inputs := WriteInputs(host, prefix, items);
    ghost var tables0 := state.tables;
    yielded := [];
    failure := None;
    var i := 0;
    while i < |items|
      invariant 0 <= i <= |items|
      invariant failure.None?
      invariant WriteFold(inputs, i, tables0) == WriteRun(yielded, state.tables, failure)
    {
      yielded, failure := MapWriteItem(host, prefix, items[i], state, yielded);
      assert WriteFold(inputs, i + 1, tables0) == WriteTurn(inputs, i + 1, tables0);
      if failure.Some? {
        WriteStops(inputs, i + 1, tables0);
        return;
      }
      i := i + 1;
    }
  }

  /** Once the write generator has thrown, the later items change nothing. */
  lemma {:induction false} WriteStops(inputs: seq<WriteInput>, m: nat, tables: map<string, TableState>)
    requires m <= |inputs|
    requires WriteFold(inputs, m, tables).failure.Some?
    ensures forall n :: m <= n <= |inputs| ==> WriteFold(inputs, n, tables) == WriteFold(inputs, m, tables)
  {
    var n := m;
    while n < |inputs|
      invariant m <= n <= |inputs|
      invariant forall k :: m <= k <= n ==> WriteFold(inputs, k, tables) == WriteFold(inputs, m, tables)
    {
      assert WriteFold(inputs, n + 1, tables) == WriteTurn(inputs, n + 1, tables);
      n := n + 1;
    }
  }

  /** The tables and attributes `batchWrite` reads back from what the write
      generator yielded. */
  function WrittenEntries(yielded: seq<(string, WriteRequest)>): (r: seq<(string, AttributeMap)>)
    ensures |r| == |yielded|
    ensures forall i :: 0 <= i < |yielded| ==> r[i] == (yielded[i].0, RequestAttributes(yielded[i].1))
  {
    seq(|yielded|, i requires 0 <= i < |yielded| => (yielded[i].0, RequestAttributes(yielded[i].1)))
  }

  /** The schemas of the items, in order. */
  function WriteSchemas(inputs: seq<WriteInput>): (r: seq<Schema>)
    ensures |r| == |inputs| && forall i :: 0 <= i < |inputs| ==> r[i] == inputs[i].schema
  {
    seq(|inputs|, i requires 0 <= i < |inputs| => inputs[i].schema)
  }

  /** One write turn yields the item's request or throws, and keeps the
      tables already there. */
  lemma WriteStepFacts(run: WriteRun, input: WriteInput)
    ensures var r := WriteStep(run, input);
      && (r.failure.None? ==>
            input.attributes.Ok? && r.yielded == run.yielded + [(input.tableName, RequestOf(input.kind, input.attributes.value))])
      && (r.failure.Some? ==> r.yielded == run.yielded)
      && (forall t :: t in run.tables ==> t in r.tables && r.tables[t].keyProperties == run.tables[t].keyProperties)
  {
  }

  /** One write turn yields the item's request or throws. */
  lemma WriteStepYields(run: WriteRun, input: WriteInput)
    ensures var r := WriteStep(run, input);
      && (r.failure.None? ==>
            input.attributes.Ok? && r.yielded == run.yielded + [(input.tableName, RequestOf(input.kind, input.attributes.value))])
      && (r.failure.Some? ==> r.yielded == run.yielded)
  {
  }

  /** A request carries the attributes it was made of, and is a put exactly
      for a put. */
  lemma RequestOfFacts(kind: WriteType, attributes: AttributeMap)
    ensures RequestAttributes(RequestOf(kind, attributes)) == attributes
    ensures RequestOf(kind, attributes).PutRequest? <==> kind == PutWrite
  {
  }

  /** One write turn keeps every yielded request resolvable. */
  lemma WriteStepResolves(run: WriteRun, input: WriteInput, schemas: seq<Schema>)
    requires |run.yielded| < |schemas| && schemas[|run.yielded|] == input.schema
    requires Resolves(run.tables, WrittenEntries(run.yielded), schemas)
    ensures |WriteStep(run, input).yielded| <= |run.yielded| + 1
    ensures Resolves(WriteStep(run, input).tables, WrittenEntries(WriteStep(run, input).yielded), schemas)
  {
    var tables' := WithTable(run.tables, input.tableName, input.schema);
    WithTableKeepsLookups(run.tables, input.tableName, input.schema, WrittenEntries(run.yielded), schemas);
    if input.attributes.Ok? && MapperIdentifierSpec(input.attributes.value, tables'[input.tableName].keyProperties).Ok? {
      var entry := (input.tableName, input.attributes.value);
      RecordResolves(tables', WrittenEntries(run.yielded), schemas, entry, input.schema);
      var request := (input.tableName, RequestOf(input.kind, input.attributes.value));
      assert WrittenEntries(run.yielded + [request]) == WrittenEntries(run.yielded) + [entry];
    }
  }

  /** The write generator yields one request per item, in order: a delete
      of the marshalled key or a put of the marshalled item, until it
      throws. */
  lemma WriteFoldYields(inputs: seq<WriteInput>, n: nat, tables: map<string, TableState>)
    requires n <= |inputs|
    ensures var r := WriteFold(inputs, n, tables);
      && |r.yielded| <= n
      && (r.failure.None? <==> |r.yielded| == n)
      && forall i :: 0 <= i < |r.yielded| ==>
           && inputs[i].attributes.Ok?
           && r.yielded[i].0 == inputs[i].tableName
           && RequestAttributes(r.yielded[i].1) == inputs[i].attributes.value
           && (r.yielded[i].1.PutRequest? <==> inputs[i].kind == PutWrite)
  {
    WriteFoldLength(inputs, n, tables);
    var r := WriteFold(inputs, n, tables);
    forall i | 0 <= i < |r.yielded|
      ensures && inputs[i].attributes.Ok?
              && r.yielded[i].0 == inputs[i].tableName
              && RequestAttributes(r.yielded[i].1) == inputs[i].attributes.value
              && (r.yielded[i].1.PutRequest? <==> inputs[i].kind == PutWrite)
    {
      WriteYielded(inputs, n, tables, i);
      RequestOfFacts(inputs[i].kind, inputs[i].attributes.value);
    }
  }

  /** The write generator yields one request per turn until it throws. */
  lemma {:induction false} WriteFoldLength(inputs: seq<WriteInput>, n: nat, tables: map<string, TableState>)
    requires n <= |inputs|
    ensures var r := WriteFold(inputs, n, tables);
      |r.yielded| <= n && (r.failure.None? <==> |r.yielded| == n)
    decreases n
  {
    if n > 0 {
      WriteFoldLength(inputs, n - 1, tables);
      var prev := WriteFold(inputs, n - 1, tables);
      assert WriteFold(inputs, n, tables) == WriteTurn(inputs, n, tables);
      if prev.failure.None? {
        WriteStepYields(prev, inputs[n - 1]);
      }
    }
  }

  /** The `i`th request yielded is made of the `i`th item. */
  lemma {:induction false} WriteYielded(inputs: seq<WriteInput>, n: nat, tables: map<string, TableState>, i: nat)
    requires i < n <= |inputs| && i < |WriteFold(inputs, n, tables).yielded|
    ensures inputs[i].attributes.Ok?
    ensures WriteFold(inputs, n, tables).yielded[i] == (inputs[i].tableName, RequestOf(inputs[i].kind, inputs[i].attributes.value))
    decreases n
  {
    var prev := WriteFold(inputs, n - 1, tables);
    WriteFoldLength(inputs, n - 1, tables);
    WriteTurnYields(inputs, n, tables);
    if i < |prev.yielded| {
      WriteYielded(inputs, n - 1, tables, i);
    } else {
      assert prev.failure.None? && |prev.yielded| == n - 1 && i == n - 1;
      assert WriteFold(inputs, n, tables).failure.None?;
      assert inputs[n - 1].attributes.Ok?;
    }
  }

  /** One turn of the write generator: nothing after it has thrown, else the
      request of the item or an error. */
  lemma WriteTurnYields(inputs: seq<WriteInput>, n: nat, tables: map<string, TableState>)
    requires 0 < n <= |inputs|
    ensures var prev := WriteFold(inputs, n - 1, tables); var r := WriteFold(inputs, n, tables);
      && (prev.failure.Some? ==> r == prev)
      && (prev.failure.None? && r.failure.None? ==>
            inputs[n - 1].attributes.Ok?
            && r.yielded == prev.yielded + [(inputs[n - 1].tableName, RequestOf(inputs[n - 1].kind, inputs[n - 1].attributes.value))])
      && (prev.failure.None? && r.failure.Some? ==> r.yielded == prev.yielded)
  {
    var prev := WriteFold(inputs, n - 1, tables);
    assert WriteFold(inputs, n, tables) == WriteTurn(inputs, n, tables);
    WriteStepYields(prev, inputs[n - 1]);
  }

  /** The write state only grows: no table is dropped and no table's key
      properties change. */
  lemma {:induction false} WriteFoldGrows(inputs: seq<WriteInput>, n: nat, tables: map<string, TableState>)
    requires n <= |inputs|
    ensures var r := WriteFold(inputs, n, tables);
      forall t :: t in tables ==> t in r.tables && r.tables[t].keyProperties == tables[t].keyProperties
    decreases n
  {
    if n > 0 {
      WriteFoldGrows(inputs, n - 1, tables);
      var prev := WriteFold(inputs, n - 1, tables);
      assert WriteFold(inputs, n, tables) == WriteTurn(inputs, n, tables);
      if prev.failure.None? {
        WriteStepFacts(prev, inputs[n - 1]);
      }
    }
  }

  /** Each yielded request's attributes resolve through the final state, to
      its own item's schema unless a later item of the same table has the
      same identifier. */
  lemma {:induction false} WriteFoldResolves(inputs: seq<WriteInput>, n: nat, tables: map<string, TableState>)
    requires n <= |inputs|
    ensures var r := WriteFold(inputs, n, tables);
      |r.yielded| <= n && Resolves(r.tables, WrittenEntries(r.yielded), WriteSchemas(inputs))
    decreases n
  {
    if n > 0 {
      WriteFoldResolves(inputs, n - 1, tables);
      var prev := WriteFold(inputs, n - 1, tables);
      var schemas := WriteSchemas(inputs);
      if prev.failure.None? {
        WriteFoldLength(inputs, n - 1, tables);
        WriteStepResolves(prev, inputs[n - 1], schemas);
        WriteFoldNext(inputs, n, tables);
      } else {
        WriteFoldStops(inputs, n, tables);
      }
    }
  }

  lemma WriteFoldNext(inputs: seq<WriteInput>, n: nat, tables: map<string, TableState>)
    requires 0 < n <= |inputs| && WriteFold(inputs, n - 1, tables).failure.None?
    ensures WriteFold(inputs, n, tables) == WriteStep(WriteFold(inputs, n - 1, tables), inputs[n - 1])
  {
    assert WriteFold(inputs, n, tables) == WriteTurn(inputs, n, tables);
  }

  lemma WriteFoldStops(inputs: seq<WriteInput>, n: nat, tables: map<string, TableState>)
    requires 0 < n <= |inputs| && WriteFold(inputs, n - 1, tables).failure.Some?
    ensures WriteFold(inputs, n, tables) == WriteFold(inputs, n - 1, tables)
  {
    assert WriteFold(inputs, n, tables) == WriteTurn(inputs, n, tables);
  }

  // ---------------------------------------------------------------------------
  // What batchWrite does with the requests the batch reports written

  /** What `batchWrite` yields for a request the batch reports written: the
      kind of write and the attributes unmarshalled with the schema recorded
      for their identifier. */
  function BatchWriteResult(tables: map<string, TableState>, tableName: string, request: WriteRequest)
    : (r: Result<(WriteType, seq<(string, JsValue)>)>)
    ensures r.Ok? ==> (r.value.0 == PutWrite <==> request.PutRequest?)
    ensures r.Ok? ==> Lookup(tables, tableName, RequestAttributes(request)).Ok?
  {
    var attributes := RequestAttributes(request);
    match Lookup(tables, tableName, attributes)
    case Err(e) => Err(e)
    case Ok(schema) =>
      match DU.UnmarshallItemSpec(schema, attributes)
      case Err(e) => Err(e)
      case Ok(item) => Ok((if request.PutRequest? then PutWrite else DeleteWrite, item))
  }

  /** `batchPut` gives back each item it was handed: a put item that fits
      its schema comes back from the batch as the same properties, unless a
      later item of the same table with the same key replaced its schema. */
  lemma BatchPutRoundTrip(host: DM.Host, prefix: string, items: seq<WriteItem>, tables: map<string, TableState>,
                          i: nat, props: seq<(string, JsValue)>)
    requires i < |items|
    requires items[i].kind == PutWrite && items[i].value == Object(props)
    requires RT.Fits(Root(items[i].schema), Object(props))
    requires var r := WriteFold(WriteInputs(host, prefix, items), |items|, tables);
      i < |r.yielded| && !Overwritten(r.tables, WrittenEntries(r.yielded), i)
    ensures var r := WriteFold(WriteInputs(host, prefix, items), |items|, tables);
      BatchWriteResult(r.tables, r.yielded[i].0, r.yielded[i].1) == Ok((PutWrite, props))
  {
    var inputs := WriteInputs(host, prefix, items);
    var r := WriteFold(inputs, |items|, tables);
    WriteFoldYields(inputs, |items|, tables);
    WriteFoldResolves(inputs, |items|, tables);
    RT.ItemRoundTrip(host, items[i].schema, props);
    assert WrittenEntries(r.yielded)[i] == (r.yielded[i].0, RequestAttributes(r.yielded[i].1));
  }
}
