/** The data mapper's table definition helpers: the projection and the
    provisioned throughput of a secondary index, and the global and local
    index lists built from a schema's per-index keys and the caller's
    per-index options. */
module TableDefinition {
  import opened Wrappers
  import opened Values
  import opened SchemaTypes
  import opened MapperKeys

  /** The index type that selects the local list. */
  const LocalKind := "local"

  /** The projection name that selects every attribute. */
  const AllName := "all"

  /** DynamoDB's projection types. */
  const ProjectAll := "ALL"
  const ProjectKeysOnly := "KEYS_ONLY"
  const ProjectInclude := "INCLUDE"

  /** A `SecondaryIndexProjection`: `'all'`, `'keys'`, or the properties to include. */
  datatype SecondaryIndexProjection = ProjectionName(name: string) | ProjectionAttributes(properties: seq<string>)

  /** A DynamoDB `Projection`. */
  datatype Projection = Projection(projectionType: string, nonKeyAttributes: Option<seq<string>>)

  datatype Throughput = Throughput(readCapacityUnits: JsValue, writeCapacityUnits: JsValue)

  /** The options of one index: its `type` (`'global'` or `'local'`), its
      projection, and the capacity units (`undefined` when not given). */
  datatype IndexOptions = IndexOptions(
    kind: string,
    projection: SecondaryIndexProjection,
    readCapacityUnits: JsValue,
    writeCapacityUnits: JsValue)

  datatype LocalIndex = LocalIndex(indexName: string, keySchema: seq<KeySchemaElement>, projection: Projection)

  datatype GlobalIndex = GlobalIndex(
    indexName: string,
    keySchema: seq<KeySchemaElement>,
    projection: Projection,
    provisionedThroughput: Option<Throughput>)

  /** The two index lists, each `undefined` when empty. */
  datatype IndexDefinitions = IndexDefinitions(
    globalSecondaryIndexes: Option<seq<GlobalIndex>>,
    localSecondaryIndexes: Option<seq<LocalIndex>>)

  // ---------------------------------------------------------------------------
  // indexProjection and provisionedThroughput

  /** `indexProjection`: a string gives ALL when it is `'all'` and KEYS_ONLY
      otherwise; a list gives INCLUDE with each property's attribute name. */
  function IndexProjection(schema: Schema, projection: SecondaryIndexProjection): (r: Projection)
    ensures projection.ProjectionName? ==>
      r.nonKeyAttributes.None? && r.projectionType == (if projection.name == AllName then ProjectAll else ProjectKeysOnly)
    ensures projection.ProjectionAttributes? ==>
      && r.projectionType == ProjectInclude
      && r.nonKeyAttributes.Some?
      && |r.nonKeyAttributes.value| == |projection.properties|
      && forall i :: 0 <= i < |projection.properties| ==>
           r.nonKeyAttributes.value[i] == GetSchemaName(projection.properties[i], schema)
  {
    match projection
    case ProjectionName(name) => Projection(if name == AllName then ProjectAll else ProjectKeysOnly, None)
    case ProjectionAttributes(properties) =>
      Projection(ProjectInclude, Some(SchemaNames(properties, schema)))
  }

  /** The attribute name of each property, in order. */
  function SchemaNames(properties: seq<string>, schema: Schema): (r: seq<string>)
    ensures |r| == |properties|
    ensures forall i :: 0 <= i < |properties| ==> r[i] == GetSchemaName(properties[i], schema)
    decreases |properties|
  {
    if |properties| == 0 then []
    else SchemaNames(properties[..|properties| - 1], schema) + [GetSchemaName(properties[|properties| - 1], schema)]
  }

  /** An included property with a declared attribute name is listed under
      that name, and one the schema does not know under its own. */
  lemma IncludedNamesRenamed(schema: Schema, properties: seq<string>, i: int)
    requires 0 <= i < |properties|
    ensures var names := IndexProjection(schema, ProjectionAttributes(properties)).nonKeyAttributes.value;
      && (Get(schema, properties[i]).None? ==> names[i] == properties[i])
      && (Get(schema, properties[i]).Some? && Get(schema, properties[i]).value.attributeName.Some? ==>
            names[i] == Get(schema, properties[i]).value.attributeName.value)
  {
  }

  predicate IsNumber(v: JsValue)
  {
    v.Num? || v.NaN?
  }

  /** `typeof v === 'number'`. */
  lemma IsNumberTypeOf(v: JsValue)
    ensures IsNumber(v) <==> TypeOf(v) == "number"
  {
  }

  /** `provisionedThroughput`: the capacity units, only when both are numbers. */
  function ProvisionedThroughput(readCapacityUnits: JsValue, writeCapacityUnits: JsValue): (r: Option<Throughput>)
    ensures r.Some? <==> IsNumber(readCapacityUnits) && IsNumber(writeCapacityUnits)
    ensures r.Some? ==> r.value == Throughput(readCapacityUnits, writeCapacityUnits)
  {
    if IsNumber(readCapacityUnits) && IsNumber(writeCapacityUnits) then
      Some(Throughput(readCapacityUnits, writeCapacityUnits))
    else None
  }

  // ---------------------------------------------------------------------------
  // indexDefinitions

  function NoOptions(indexName: string): string
  {
    "No options provided for " + indexName + " index"
  }

  /** One index of the loop: its entry in the global or the local list. */
  datatype IndexEntry = GlobalEntry(g: GlobalIndex) | LocalEntry(l: LocalIndex)

  /** What the loop makes of one index whose key schema has been computed, or
      the error it throws. */
  function IndexEntryOf(indexName: string, keySchema: seq<KeySchemaElement>, options: map<string, IndexOptions>,
                        schema: Schema): (r: Result<IndexEntry>)
    ensures r.Err? <==> indexName !in options
    ensures r.Err? ==> r.error == NoOptions(indexName)
    ensures r.Ok? ==> (r.value.LocalEntry? <==> options[indexName].kind == LocalKind)
  {
    if indexName !in options then Err(NoOptions(indexName))
    else
      var o := options[indexName];
      var projection := IndexProjection(schema, o.projection);
      if o.kind == LocalKind then Ok(LocalEntry(LocalIndex(indexName, keySchema, projection)))
      else Ok(GlobalEntry(GlobalIndex(indexName, keySchema, projection,
                                      ProvisionedThroughput(o.readCapacityUnits, o.writeCapacityUnits))))
  }

  /** The global and local lists while the loop runs. */
  datatype IndexLists = IndexLists(globals: seq<GlobalIndex>, locals: seq<LocalIndex>)

  /** An entry pushed onto the list it belongs to. */
  function Place(lists: IndexLists, entry: IndexEntry): (r: IndexLists)
    ensures entry.GlobalEntry? ==> r == IndexLists(lists.globals + [entry.g], lists.locals)
    ensures entry.LocalEntry? ==> r == IndexLists(lists.globals, lists.locals + [entry.l])
  {
    match entry
    case GlobalEntry(g) => lists.(globals := lists.globals + [g])
    case LocalEntry(l) => lists.(locals := lists.locals + [l])
  }

  /** The keys of one index: its name and the key type of each of its key
      properties. */
  datatype IndexKeys = IndexKeys(indexName: string, keyTypes: seq<(string, KeyType)>)

  /** The per-index keys, as `Object.keys` visits them. */
  type PerIndexKeys = seq<IndexKeys>

  /** An index with its key schema ordered by `keyTypesToElementList`. */
  datatype KeyedIndex = KeyedIndex(indexName: string, keySchema: seq<KeySchemaElement>)

  /** The key schema of every index; `keyTypesToElementList` is total and has
      no effects, so computing these before the loop changes nothing. */
  function KeyedIndexes(keys: PerIndexKeys): (r: seq<KeyedIndex>)
    ensures |r| == |keys|
    ensures forall i :: 0 <= i < |keys| ==> r[i].indexName == keys[i].indexName
    ensures forall i {:trigger r[i].keySchema} :: 0 <= i < |keys| ==>
      r[i].keySchema == KeyTypesToElementList(keys[i].keyTypes)
    decreases |keys|
  {
    if |keys| == 0 then []
    else
      var last := keys[|keys| - 1];
      KeyedIndexes(keys[..|keys| - 1]) + [KeyedIndex(last.indexName, KeyTypesToElementList(last.keyTypes))]
  }

  /** The two lists after the loop has visited the first `n` indexes. */
  function IndexFold(ks: seq<KeyedIndex>, n: nat, options: map<string, IndexOptions>, schema: Schema)
    : (r: Result<IndexLists>)
    requires n <= |ks|
    decreases n
  {
    if n == 0 then Ok(IndexLists([], []))
    else Then(IndexFold(ks, n - 1, options, schema), IndexEntryOf(ks[n - 1].indexName, ks[n - 1].keySchema, options, schema))
  }

  /** The lists so far, extended by one entry; the first error wins. */
  function Then(prev: Result<IndexLists>, entry: Result<IndexEntry>): (r: Result<IndexLists>)
    ensures prev.Err? ==> r == prev
    ensures prev.Ok? && entry.Err? ==> r == Err(entry.error)
    ensures prev.Ok? && entry.Ok? ==> r == Ok(Place(prev.value, entry.value))
  {
    if prev.Err? then prev
    else if entry.Err? then Err(entry.error)
    else Ok(Place(prev.value, entry.value))
  }

  /** The lists as `indexDefinitions` returns them: each `undefined` when empty. */
  function Definitions(lists: IndexLists): (d: IndexDefinitions)
    ensures d.globalSecondaryIndexes.Some? <==> |lists.globals| > 0
    ensures d.localSecondaryIndexes.Some? <==> |lists.locals| > 0
    ensures d.globalSecondaryIndexes.Some? ==> d.globalSecondaryIndexes.value == lists.globals
    ensures d.localSecondaryIndexes.Some? ==> d.localSecondaryIndexes.value == lists.locals
  {
    IndexDefinitions(if |lists.globals| > 0 then Some(lists.globals) else None,
                     if |lists.locals| > 0 then Some(lists.locals) else None)
  }

  /** `indexDefinitions`. */
  function IndexDefinitionsSpec(keys: PerIndexKeys, options: map<string, IndexOptions>, schema: Schema)
    : Result<IndexDefinitions>
  {
    match IndexFold(KeyedIndexes(keys), |keys|, options, schema)
    case Err(e) => Err(e)
    case Ok(lists) => Ok(Definitions(lists))
  }

  /** The body of the loop of `indexDefinitions` for one index. */
  method DefineIndex(indexName: string, keyTypes: seq<(string, KeyType)>, options: map<string, IndexOptions>,
                     schema: Schema) returns (r: Result<IndexEntry>)
    ensures r == IndexEntryOf(indexName, KeyTypesToElementList(keyTypes), options, schema)
  {
    var keySchema := KeyTypesToElementList(keyTypes);
    if indexName !in options {
      return Err(NoOptions(indexName));
    }
    var indexOptions := options[indexName];
    var projection := IndexProjection(schema, indexOptions.projection);
    if indexOptions.kind == LocalKind {
      r := Ok(LocalEntry(LocalIndex(indexName, keySchema, projection)));
    } else {
      var throughput := ProvisionedThroughput(indexOptions.readCapacityUnits, indexOptions.writeCapacityUnits);
      r := Ok(GlobalEntry(GlobalIndex(indexName, keySchema, projection, throughput)));
    }
  }

  method BuildIndexDefinitions(keys: PerIndexKeys, options: map<string, IndexOptions>, schema: Schema)
    returns (r: Result<IndexDefinitions>)
    ensures r == IndexDefinitionsSpec(keys, options, schema)
  {
    ghost var ks := KeyedIndexes(keys);
    var globalIndices: seq<GlobalIndex> := [];
    var localIndices: seq<LocalIndex> := [];
    var i := 0;
    while i < |keys|
      invariant 0 <= i <= |keys| == |ks|
      invariant IndexFold(ks, i, options, schema) == Ok(IndexLists(globalIndices, localIndices))
    {
      KeyedIndexAt(keys, i);
      var entry := DefineIndex(keys[i].indexName, keys[i].keyTypes, options, schema);
      if entry.Err? {
        FoldErrAt(ks, i, options, schema, IndexLists(globalIndices, localIndices), entry.error);
        SpecOfFoldErr(keys, options, schema, entry.error);
        return Err(entry.error);
      }
      FoldOkAt(ks, i, options, schema, IndexLists(globalIndices, localIndices), entry.value);
      if entry.value.LocalEntry? {
        localIndices := localIndices + [entry.value.l];
      } else {
        globalIndices := globalIndices + [entry.value.g];
      }
      i := i + 1;
    }
    SpecOfFold(keys, options, schema, IndexLists(globalIndices, localIndices));
    r := Ok(Definitions(IndexLists(globalIndices, localIndices)));
  }

  /** The key schema of index `i`, as the loop computes it. */
  lemma KeyedIndexAt(keys: PerIndexKeys, i: nat)
    requires i < |keys|
    ensures |KeyedIndexes(keys)| == |keys|
    ensures KeyedIndexes(keys)[i] == KeyedIndex(keys[i].indexName, KeyTypesToElementList(keys[i].keyTypes))
  {
  }

  /** One more index with options: its entry placed on its list. */
  lemma FoldOkAt(ks: seq<KeyedIndex>, i: nat, options: map<string, IndexOptions>, schema: Schema,
                 lists: IndexLists, entry: IndexEntry)
    requires i < |ks| && IndexFold(ks, i, options, schema) == Ok(lists)
    requires IndexEntryOf(ks[i].indexName, ks[i].keySchema, options, schema) == Ok(entry)
    ensures entry.LocalEntry? ==>
      IndexFold(ks, i + 1, options, schema) == Ok(IndexLists(lists.globals, lists.locals + [entry.l]))
    ensures entry.GlobalEntry? ==>
      IndexFold(ks, i + 1, options, schema) == Ok(IndexLists(lists.globals + [entry.g], lists.locals))
  {
  }

  /** The definitions are the finished lists, or the loop's error. */
  lemma SpecOfFold(keys: PerIndexKeys, options: map<string, IndexOptions>, schema: Schema, lists: IndexLists)
    requires IndexFold(KeyedIndexes(keys), |keys|, options, schema) == Ok(lists)
    ensures IndexDefinitionsSpec(keys, options, schema) == Ok(Definitions(lists))
  {
  }

  lemma SpecOfFoldErr(keys: PerIndexKeys, options: map<string, IndexOptions>, schema: Schema, e: string)
    requires IndexFold(KeyedIndexes(keys), |keys|, options, schema) == Err(e)
    ensures IndexDefinitionsSpec(keys, options, schema) == Err(e)
  {
  }

  lemma FoldErrAt(ks: seq<KeyedIndex>, i: nat, options: map<string, IndexOptions>, schema: Schema,
                  lists: IndexLists, e: string)
    requires i < |ks| && IndexFold(ks, i, options, schema) == Ok(lists)
    requires IndexEntryOf(ks[i].indexName, ks[i].keySchema, options, schema) == Err(e)
    ensures IndexFold(ks, |ks|, options, schema) == Err(e)
  {
    assert IndexFold(ks, i + 1, options, schema) == Err(e);
    IndexErrSticky(ks, i + 1, |ks|, options, schema);
  }

  lemma {:induction false} IndexErrSticky(ks: seq<KeyedIndex>, m: nat, n: nat, options: map<string, IndexOptions>,
                                          schema: Schema)
    requires m <= n <= |ks|
    requires IndexFold(ks, m, options, schema).Err?
    ensures IndexFold(ks, n, options, schema) == IndexFold(ks, m, options, schema)
    decreases n
  {
    if n > m {
      IndexErrSticky(ks, m, n - 1, options, schema);
    }
  }

  // ---------------------------------------------------------------------------
  // Properties

  /** The loop fails exactly when some index has no options, and then with
      the message naming the first such index. */
  lemma {:induction false} IndexFoldError(ks: seq<KeyedIndex>, n: nat, options: map<string, IndexOptions>,
                                          schema: Schema)
    requires n <= |ks|
    ensures IndexFold(ks, n, options, schema).Err? <==>
      exists i :: 0 <= i < n && ks[i].indexName !in options
    ensures IndexFold(ks, n, options, schema).Err? ==>
      exists i :: 0 <= i < n && ks[i].indexName !in options
        && (forall j :: 0 <= j < i ==> ks[j].indexName in options)
        && IndexFold(ks, n, options, schema).error == NoOptions(ks[i].indexName)
    decreases n
  {
    if n > 0 {
      IndexFoldError(ks, n - 1, options, schema);
      var prev := IndexFold(ks, n - 1, options, schema);
      var entry := IndexEntryOf(ks[n - 1].indexName, ks[n - 1].keySchema, options, schema);
      if prev.Err? {
        var i :| 0 <= i < n - 1 && ks[i].indexName !in options
          && (forall j :: 0 <= j < i ==> ks[j].indexName in options)
          && prev.error == NoOptions(ks[i].indexName);
        assert IndexFold(ks, n, options, schema) == prev;
      } else if entry.Err? {
        assert IndexFold(ks, n, options, schema) == Err(NoOptions(ks[n - 1].indexName));
      } else {
        assert IndexFold(ks, n, options, schema).Ok?;
        forall i | 0 <= i < n
          ensures ks[i].indexName in options
        {
          if i < n - 1 {
            assert !(0 <= i < n - 1 && ks[i].indexName !in options);
          }
        }
      }
    }
  }

  /** A successful loop extends a successful shorter one by the last index's entry. */
  lemma FoldOkStep(ks: seq<KeyedIndex>, n: nat, options: map<string, IndexOptions>, schema: Schema)
    requires 0 < n <= |ks| && IndexFold(ks, n, options, schema).Ok?
    ensures IndexFold(ks, n - 1, options, schema).Ok?
    ensures IndexEntryOf(ks[n - 1].indexName, ks[n - 1].keySchema, options, schema).Ok?
    ensures IndexFold(ks, n, options, schema).value ==
      Place(IndexFold(ks, n - 1, options, schema).value, IndexEntryOf(ks[n - 1].indexName, ks[n - 1].keySchema, options, schema).value)
  {
  }

  /** Whether the options of index `k` exist and say `'local'` (when `local`)
      or something else (when not). */
  predicate Declares(k: KeyedIndex, options: map<string, IndexOptions>, local: bool)
  {
    k.indexName in options && (options[k.indexName].kind == LocalKind) == local
  }

  /** Whether the index `k`, with options `o`, has its entry in the list its
      options name: its key schema and projection, and for a global index
      the throughput of its options. */
  predicate Placed(lists: IndexLists, k: KeyedIndex, o: IndexOptions, schema: Schema)
  {
    var projection := IndexProjection(schema, o.projection);
    if o.kind == LocalKind then LocalIndex(k.indexName, k.keySchema, projection) in lists.locals
    else GlobalIndex(k.indexName, k.keySchema, projection,
                     ProvisionedThroughput(o.readCapacityUnits, o.writeCapacityUnits)) in lists.globals
  }

  /** Whether `e` is on the list it belongs to. */
  predicate Holds(lists: IndexLists, e: IndexEntry)
  {
    match e
    case GlobalEntry(g) => g in lists.globals
    case LocalEntry(l) => l in lists.locals
  }

  /** Placing another entry keeps every entry already placed, and places its own. */
  lemma PlaceHolds(lists: IndexLists, entry: IndexEntry, e: IndexEntry)
    ensures Holds(lists, e) ==> Holds(Place(lists, entry), e)
    ensures Holds(Place(lists, entry), entry)
  {
  }

  /** An index's entry, once on its list, is placed where its options say. */
  lemma PlacedOfHolds(lists: IndexLists, k: KeyedIndex, options: map<string, IndexOptions>, schema: Schema)
    requires k.indexName in options
    requires Holds(lists, IndexEntryOf(k.indexName, k.keySchema, options, schema).value)
    ensures Placed(lists, k, options[k.indexName], schema)
  {
  }

  /** Every index with options gets an entry with its key schema and its
      projection, in the local list when its options say `'local'` and in the
      global list otherwise, where it carries the throughput of its options. */
  lemma {:induction false} IndexFoldPlacement(ks: seq<KeyedIndex>, n: nat, options: map<string, IndexOptions>,
                                              schema: Schema)
    requires n <= |ks|
    requires IndexFold(ks, n, options, schema).Ok?
    ensures forall i :: 0 <= i < n && ks[i].indexName in options ==>
      Placed(IndexFold(ks, n, options, schema).value, ks[i], options[ks[i].indexName], schema)
  {
    forall i | 0 <= i < n && ks[i].indexName in options
      ensures Placed(IndexFold(ks, n, options, schema).value, ks[i], options[ks[i].indexName], schema)
    {
      IndexPlaced(ks, n, options, schema, i);
      PlacedOfHolds(IndexFold(ks, n, options, schema).value, ks[i], options, schema);
    }
  }

  /** The entry of index `i` stays on its list once the loop has passed it. */
  lemma {:induction false} IndexPlaced(ks: seq<KeyedIndex>, n: nat, options: map<string, IndexOptions>,
                                       schema: Schema, i: nat)
    requires i < n <= |ks| && ks[i].indexName in options
    requires IndexFold(ks, n, options, schema).Ok?
    ensures Holds(IndexFold(ks, n, options, schema).value, IndexEntryOf(ks[i].indexName, ks[i].keySchema, options, schema).value)
    decreases n
  {
    FoldOkStep(ks, n, options, schema);
    var prev := IndexFold(ks, n - 1, options, schema).value;
    var entry := IndexEntryOf(ks[n - 1].indexName, ks[n - 1].keySchema, options, schema).value;
    var e := IndexEntryOf(ks[i].indexName, ks[i].keySchema, options, schema).value;
    if i < n - 1 {
      IndexPlaced(ks, n - 1, options, schema, i);
    }
    PlaceHolds(prev, entry, e);
  }

  /** Each local entry comes from an index whose options say `'local'`, and
      each global entry from one whose options do not. */
  lemma {:induction false} IndexFoldOrigin(ks: seq<KeyedIndex>, n: nat, options: map<string, IndexOptions>,
                                           schema: Schema)
    requires n <= |ks|
    requires IndexFold(ks, n, options, schema).Ok?
    ensures var lists := IndexFold(ks, n, options, schema).value;
      forall l :: l in lists.locals ==>
        exists i :: 0 <= i < n && ks[i].indexName == l.indexName && Declares(ks[i], options, true)
    ensures var lists := IndexFold(ks, n, options, schema).value;
      forall g :: g in lists.globals ==>
        exists i :: 0 <= i < n && ks[i].indexName == g.indexName && Declares(ks[i], options, false)
    decreases n
  {
    if n > 0 {
      var prev := IndexFold(ks, n - 1, options, schema);
      var entry := IndexEntryOf(ks[n - 1].indexName, ks[n - 1].keySchema, options, schema);
      FoldOkStep(ks, n, options, schema);
      IndexFoldOrigin(ks, n - 1, options, schema);
      var lists := IndexFold(ks, n, options, schema).value;
      forall l | l in lists.locals
        ensures exists i :: 0 <= i < n && ks[i].indexName == l.indexName && Declares(ks[i], options, true)
      {
        if l in prev.value.locals {
          var i :| 0 <= i < n - 1 && ks[i].indexName == l.indexName && Declares(ks[i], options, true);
        } else {
          assert entry.value == LocalEntry(l);
          assert ks[n - 1].indexName == l.indexName && Declares(ks[n - 1], options, true);
        }
      }
      forall g | g in lists.globals
        ensures exists i :: 0 <= i < n && ks[i].indexName == g.indexName && Declares(ks[i], options, false)
      {
        if g in prev.value.globals {
          var i :| 0 <= i < n - 1 && ks[i].indexName == g.indexName && Declares(ks[i], options, false);
        } else {
          assert entry.value == GlobalEntry(g);
          assert ks[n - 1].indexName == g.indexName && Declares(ks[n - 1], options, false);
        }
      }
    }
  }

  /** `indexDefinitions` throws exactly when some index has no options, with
      the message naming the first such index. */
  lemma IndexDefinitionsError(keys: PerIndexKeys, options: map<string, IndexOptions>, schema: Schema)
    ensures IndexDefinitionsSpec(keys, options, schema).Err? <==>
      exists i :: 0 <= i < |keys| && keys[i].indexName !in options
    ensures IndexDefinitionsSpec(keys, options, schema).Err? ==>
      exists i :: 0 <= i < |keys| && keys[i].indexName !in options
        && (forall j :: 0 <= j < i ==> keys[j].indexName in options)
        && IndexDefinitionsSpec(keys, options, schema).error == NoOptions(keys[i].indexName)
  {
    IndexFoldError(KeyedIndexes(keys), |keys|, options, schema);
  }

  /** In the definitions, every index of the schema appears with its key
      schema ordered HASH first, in the list its options name. */
  lemma IndexDefinitionsPlacement(keys: PerIndexKeys, options: map<string, IndexOptions>, schema: Schema)
    requires IndexDefinitionsSpec(keys, options, schema).Ok?
    ensures var d := IndexDefinitionsSpec(keys, options, schema).value;
      forall i, o :: 0 <= i < |keys| && keys[i].indexName in options && options[keys[i].indexName] == o ==>
        var keySchema := KeyTypesToElementList(keys[i].keyTypes);
        var projection := IndexProjection(schema, o.projection);
        if o.kind == LocalKind then
          d.localSecondaryIndexes.Some? && LocalIndex(keys[i].indexName, keySchema, projection) in d.localSecondaryIndexes.value
        else
          d.globalSecondaryIndexes.Some? && GlobalIndex(keys[i].indexName, keySchema, projection,
            ProvisionedThroughput(o.readCapacityUnits, o.writeCapacityUnits)) in d.globalSecondaryIndexes.value
  {
    IndexFoldPlacement(KeyedIndexes(keys), |keys|, options, schema);
  }

  /** The local list (when `local`) or the global list (when not). */
  function ListSize(lists: IndexLists, local: bool): nat
  {
    if local then |lists.locals| else |lists.globals|
  }

  /** A list is non-empty exactly when some visited index belongs to it. */
  lemma {:induction false} IndexFoldPresence(ks: seq<KeyedIndex>, n: nat, options: map<string, IndexOptions>,
                                             schema: Schema, local: bool)
    requires n <= |ks|
    requires IndexFold(ks, n, options, schema).Ok?
    ensures ListSize(IndexFold(ks, n, options, schema).value, local) > 0 <==>
      exists i :: 0 <= i < n && Declares(ks[i], options, local)
    decreases n
  {
    if n > 0 {
      var prev := IndexFold(ks, n - 1, options, schema);
      var entry := IndexEntryOf(ks[n - 1].indexName, ks[n - 1].keySchema, options, schema);
      FoldOkStep(ks, n, options, schema);
      IndexFoldPresence(ks, n - 1, options, schema, local);
      var lists := IndexFold(ks, n, options, schema).value;
      assert Declares(ks[n - 1], options, entry.value.LocalEntry?);
      if entry.value.LocalEntry? == local {
        assert ListSize(lists, local) > 0;
      } else {
        assert ListSize(lists, local) == ListSize(prev.value, local);
        if i :| 0 <= i < n && Declares(ks[i], options, local) {
          assert i < n - 1;
        }
      }
    }
  }

  /** An empty list is left `undefined`, and a list is present exactly when
      some index belongs to it. */
  lemma IndexDefinitionsPresence(keys: PerIndexKeys, options: map<string, IndexOptions>, schema: Schema)
    requires IndexDefinitionsSpec(keys, options, schema).Ok?
    ensures var d := IndexDefinitionsSpec(keys, options, schema).value;
      && (d.localSecondaryIndexes.Some? <==>
            exists i :: 0 <= i < |keys| && keys[i].indexName in options
                        && options[keys[i].indexName].kind == LocalKind)
      && (d.globalSecondaryIndexes.Some? <==>
            exists i :: 0 <= i < |keys| && keys[i].indexName in options
                        && options[keys[i].indexName].kind != LocalKind)
  {
    var ks := KeyedIndexes(keys);
    var fold := IndexFold(ks, |keys|, options, schema);
    if fold.Ok? {
      SpecOfFold(keys, options, schema, fold.value);
      IndexFoldPresence(ks, |keys|, options, schema, true);
      IndexFoldPresence(ks, |keys|, options, schema, false);
      assert forall i :: 0 <= i < |keys| ==> ks[i].indexName == keys[i].indexName;
    }
  }
}
