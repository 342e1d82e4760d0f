# A verified model of the DynamoDB data mapper's core

This project models, in Dafny, the deterministic core of the DynamoDB data
mapper for JavaScript: the libraries that turn JavaScript objects into
DynamoDB attribute values and back, build expressions with placeholder
substitution, page through queries and scans, and keep the bookkeeping the
mapper needs to match batch results with the items submitted.

The model follows the packages of the repository:

- **Expressions** (`dynamodb-expressions`): the attribute-path parser
  (`attribute_path.dfy`), the memoising placeholder table
  `ExpressionAttributes` (`expression_attributes.dfy`, a class over the
  `names`/`values`/`nameMap` dictionaries and the shared counter), function
  expressions (`function_expression.dfy`) and projection expressions
  (`projection_expression.dfy`).
- **Schema-driven codec** (`dynamodb-data-marshaller`): schema types and
  `toSchemaName`/`isKey` (`schema.dfy`), `keysFromSchema`
  (`keys_from_schema.dfy`), the validation of untyped schema objects with a
  visited set (`schema_validation.dfy`), `marshallItem`/`marshallValue`
  (`data_marshall.dfy`), `unmarshallItem`/`unmarshallValue`
  (`data_unmarshall.dfy`), the round trip between them (`round_trip.dfy`)
  and `marshallKey` (`marshall_key.dfy`).
- **Auto-marshaller** (`dynamodb-auto-marshaller`): the policy-driven
  `Marshaller` (`auto_marshaller.dfy`) and `BinarySet`, an array of byte
  strings compared by content (`binary_set.dfy`).
- **Query iterators** (`dynamodb-query-iterator`): consumed-capacity merging
  (`consumed_capacity.dfy`), the scan and query paginators with their
  counters, limit and cursor (`pagination.dfy`), the item iterator's FIFO
  buffer (`item_iterator.dfy`) and the parallel scan paginator with its
  per-segment resume state (`parallel_scan.dfy`).
- **Batch identifiers** (`dynamodb-batch-iterator`): `itemIdentifier` and
  `serializeKeyTypeAttributes` (`item_identifier.dfy`).
- **Data mapper helpers** (`dynamodb-data-mapper`): key properties, item
  identifiers and key schema ordering (`mapper_keys.dfy`), index, projection
  and throughput definitions (`table_definition.dfy`), version attributes in
  `put`/`update`/`delete` (`versioning.dfy`), `marshallStartKey`
  (`start_key.dfy`), the batch get/write bookkeeping
  (`mapper_batch.dfy`), and the mapper's query paginator and `Paginator`
  wrapper (`mapper_query.dfy`).

Shared pieces: JavaScript values, DynamoDB attribute values and objects as
ordered association lists (`values.dfy`), text helpers (`text.dfy`),
left-to-right folds over lists and fields (`folds.dfy`), condition
expressions and their truth on an item (`conditions.dfy`) and the `Option` and
`Result` wrappers (`wrappers.dfy`).

Loops of the source are methods proved equal to a specification function;
the properties are stated about those functions as lemmas. Objects whose
fields the source updates (`ExpressionAttributes`, `BinarySet`, the
paginators, the item iterator, the mapper's `Paginator`) are classes.
Thrown errors are `Err` results. The DynamoDB client is a pure function
from request to response page, and user callbacks (custom
`marshall`/`unmarshall`) are functions given with the schema.

## Model

| member | source | states |
|---|---|---|
| AttributePath.ParseRest | packages/dynamodb-expressions/src/AttributePath.ts:59-197 | the parser only ever appends to the elements emitted so far, and never emits an empty name |
| AttributePath.ParsePathSpec | packages/dynamodb-expressions/src/AttributePath.ts:59-91 | a parsed path never holds an empty name |
| AttributePath.ParsePath | packages/dynamodb-expressions/src/AttributePath.ts:59-197 | the character loop with its peek-ahead for escapes computes exactly `ParsePathSpec`: the same elements or the same error |
| AttributePath.FromString | packages/dynamodb-expressions/src/AttributePath.ts:25-27 | `new AttributePath(string)` succeeds exactly when parsing does, holding the parsed elements, and otherwise throws the parser's error |
| AttributePath.FromElements | packages/dynamodb-expressions/src/AttributePath.ts:25-27 | `new AttributePath(elements)` holds a copy of the elements |
| AttributePath.Escape | packages/dynamodb-expressions/src/AttributePath.ts:116-125 | escaping a name adds exactly one character per `.`, `[` or `\` |
| AttributePath.ParseEscaped | packages/dynamodb-expressions/src/AttributePath.ts:116-130 | reading an escaped name collects exactly that name |
| AttributePath.EscapeLayout | packages/dynamodb-expressions/src/AttributePath.ts:116-125 | the escaped name holds every character of the name in order, each `.`, `[` and `\` right after a backslash, and nothing else |
| AttributePath.ParseDigits | packages/dynamodb-expressions/src/AttributePath.ts:156-167 | reading digits inside brackets collects exactly those digits |
| AttributePath.StepSeparator | packages/dynamodb-expressions/src/AttributePath.ts:103-115 | a `.` or `[` after a collected name or after an index emits the pending name and switches state |
| AttributePath.ParseFormat | packages/dynamodb-expressions/src/AttributePath.ts:59-197 | round trip: every path that starts with a non-empty name and has no empty names is parsed back from its canonical rendering |
| AttributePath.ParseFormatTail | packages/dynamodb-expressions/src/AttributePath.ts:69-84 | the rendering of the rest of a path, read after a name or an index, parses to its elements |
| AttributePath.JoinIsFormat | packages/dynamodb-expressions/src/AttributePath.ts:107-115 | a dot-joined list of plain names is the canonical rendering of those names |
| AttributePath.ParseDottedPath | packages/dynamodb-expressions/src/AttributePath.ts:107-115 | a dotted path of plain identifiers yields one name per segment, in order |
| AttributePath.ControlWithoutName | packages/dynamodb-expressions/src/AttributePath.ts:103-110 | a `.` or `[` met while no name is collected throws the invalid-control-character error |
| AttributePath.LeadingControlCharacter | packages/dynamodb-expressions/src/AttributePath.ts:103-110 | a path starting with `.` or `[` throws the invalid-control-character error |
| AttributePath.DoubleDot | packages/dynamodb-expressions/src/AttributePath.ts:107-110 | `a..b` throws the invalid-control-character error |
| AttributePath.NonDigitInBrackets | packages/dynamodb-expressions/src/AttributePath.ts:169-171 | inside brackets a character that is neither a digit nor `]` throws the invalid-array-index-character error naming it |
| AttributePath.EmptyBrackets | packages/dynamodb-expressions/src/AttributePath.ts:144-148 | `name[]` throws the invalid-array-index error, since an empty index does not parse |
| AttributePath.BareIdentifierAfterIndex | packages/dynamodb-expressions/src/AttributePath.ts:182-194 | after `]` any character other than `[` or `.` throws the bare-identifier error |
| AttributePath.BackslashKept | packages/dynamodb-expressions/src/AttributePath.ts:116-130 | a backslash before an ordinary character is kept in the name together with that character |
| AttributePath.BackslashEscapes | packages/dynamodb-expressions/src/AttributePath.ts:116-130 | a backslash before `.`, `[` or `\` adds only that character to the name |
| AttributePath.ExampleNestedPath | packages/dynamodb-expressions/src/AttributePath.ts:59-91 | `a.b[3].c` parses to the names `a`, `b`, the index 3 and the name `c` |
| AttributePath.ExampleEscapedDot | packages/dynamodb-expressions/src/AttributePath.ts:116-125 | `a\.b` parses to the single name `a.b` |
| ConsumedCapacity.MergeCapacities | packages/dynamodb-query-iterator/src/mergeConsumedCapacities.ts:38-42 | a merged capacity is always present and holds the sum of the two units, an absent side counting 0 |
| ConsumedCapacity.KeyUnion | packages/dynamodb-query-iterator/src/mergeConsumedCapacities.ts:53 | the key set holds exactly the keys of both maps, the first map's keys first and in order, without repeats |
| ConsumedCapacity.MergeCapacityMaps | packages/dynamodb-query-iterator/src/mergeConsumedCapacities.ts:44-61 | the loop over the key union builds the map `MergeCapacityMapsSpec` describes, and nothing when both maps are absent |
| ConsumedCapacity.MergeCapacityMapsEntries | packages/dynamodb-query-iterator/src/mergeConsumedCapacities.ts:44-61 | a merged index map is absent exactly when both inputs are; its keys are the union of theirs, each once, and each key holds the summed capacity of that index |
| ConsumedCapacity.Merge | packages/dynamodb-query-iterator/src/mergeConsumedCapacities.ts:8-36 | two absent reports merge to nothing; the merge throws exactly when both reports name different (non-empty) tables, with the source's message; otherwise a report is returned |
| ConsumedCapacity.MergeSums | packages/dynamodb-query-iterator/src/mergeConsumedCapacities.ts:22-25 | a merged report names the first defined table name and its total and table units are the sums of the two reports' |
| ConsumedCapacity.MergeUnitsCommute | packages/dynamodb-query-iterator/src/mergeConsumedCapacities.ts:16-25 | merging in the other order also succeeds and gives the same total and table units |
| ExpressionAttributes.NameIndexOf | packages/dynamodb-expressions/src/ExpressionAttributes.ts:62 | the counter value is read back from every `#attrN` placeholder, so distinct counter values give distinct placeholders |
| ExpressionAttributes.ValueIndexOf | packages/dynamodb-expressions/src/ExpressionAttributes.ts:54 | the counter value is read back from every `:valN` placeholder |
| ExpressionAttributes.AddAttributeNameSpec | packages/dynamodb-expressions/src/ExpressionAttributes.ts:60-67 | after `addAttributeName` the name map sends the name to the returned placeholder and the values are untouched |
| ExpressionAttributes.AddValueSpec | packages/dynamodb-expressions/src/ExpressionAttributes.ts:49-58 | `addValue` stores the value under the returned placeholder and touches no name |
| ExpressionAttributes.ExpressionAttributes.constructor | packages/dynamodb-expressions/src/ExpressionAttributes.ts:17-22 | a new context has empty tables and counter 0, and satisfies the substitution invariant |
| ExpressionAttributes.ExpressionAttributes.AddAttributeName | packages/dynamodb-expressions/src/ExpressionAttributes.ts:60-67 | the method returns the placeholder and reaches the state `AddAttributeNameSpec` describes, keeping the substitution invariant |
| ExpressionAttributes.ExpressionAttributes.AddValue | packages/dynamodb-expressions/src/ExpressionAttributes.ts:49-58 | the method returns the placeholder and reaches the state `AddValueSpec` describes, keeping the substitution invariant |
| ExpressionAttributes.ExpressionAttributes.AddName | packages/dynamodb-expressions/src/ExpressionAttributes.ts:31-39 | the loop over the path's elements computes the escaped path and the new state of `AddNameSpec`, keeping the substitution invariant |
| ExpressionAttributes.ExpressionAttributes.AddNameString | packages/dynamodb-expressions/src/ExpressionAttributes.ts:41 | a string is parsed first; one that does not parse throws the parser's error and adds nothing; otherwise the parsed path is added; the substitution invariant is kept either way |
| ExpressionAttributes.AddAttributeNameValid | packages/dynamodb-expressions/src/ExpressionAttributes.ts:60-67 | `addAttributeName` keeps the invariant: placeholders come from used counter values, names and values never share one, and `names` and `nameMap` are inverse |
| ExpressionAttributes.AddValueValid | packages/dynamodb-expressions/src/ExpressionAttributes.ts:49-58 | `addValue` keeps the same invariant |
| ExpressionAttributes.AddAttributeNameMemoised | packages/dynamodb-expressions/src/ExpressionAttributes.ts:27-30 | adding the same attribute name again returns the same placeholder and changes nothing, the counter included |
| ExpressionAttributes.AddAttributeNameFresh | packages/dynamodb-expressions/src/ExpressionAttributes.ts:61-64 | a new name gets the placeholder made from the current counter, which no placeholder in use has, and `names` maps it back to the name |
| ExpressionAttributes.AddValueFresh | packages/dynamodb-expressions/src/ExpressionAttributes.ts:54-55 | every value gets a fresh placeholder, even when an equal value was added before |
| ExpressionAttributes.AddValueTwiceDistinct | packages/dynamodb-expressions/src/ExpressionAttributes.ts:54 | two successive `addValue` calls never return the same placeholder |
| ExpressionAttributes.EscapeFoldRenders | packages/dynamodb-expressions/src/ExpressionAttributes.ts:33-36 | the escaped path writes each name as its placeholder in the resulting table and each index as `[i]`; earlier placeholders keep their names and values are untouched |
| ExpressionAttributes.EscapeFoldValid | packages/dynamodb-expressions/src/ExpressionAttributes.ts:31-39 | `addName` keeps the substitution invariant |
| ExpressionAttributes.EscapeFoldKnown | packages/dynamodb-expressions/src/ExpressionAttributes.ts:61 | adding a path whose names are all known changes nothing |
| ExpressionAttributes.AddNameIdempotent | packages/dynamodb-expressions/src/ExpressionAttributes.ts:27-30 | adding the same path twice gives the same string the second time and leaves the table as it was |
| ExpressionAttributes.AddNameSingle | packages/dynamodb-expressions/src/ExpressionAttributes.ts:31-39 | a one-name path becomes exactly that name's placeholder, with the leading `.` dropped |
| ExpressionAttributes.ExampleTwoPaths | packages/dynamodb-expressions/src/ExpressionAttributes.ts:31-39 | `a.b` then `c[2]` give `#attr0.#attr1` and `#attr2[2]` |
| ExpressionAttributes.AddAttributeNameAsWritten | packages/dynamodb-expressions/src/ExpressionAttributes.ts:60-67 | as written, the `in` test also sees names inherited from `Object.prototype`: such a name is never registered and the inherited member is returned; any other name behaves as `AddAttributeNameSpec` |
| ExpressionAttributes.InheritedNameNotSubstituted | packages/dynamodb-expressions/src/ExpressionAttributes.ts:61 | for `toString`, the code as written registers nothing, while the own-property test gives `#attr0` |
| FunctionExpression.ArgsSpec | packages/dynamodb-expressions/src/FunctionExpression.ts:29-39 | one serialised form per argument, in argument order |
| FunctionExpression.Serialize | packages/dynamodb-expressions/src/FunctionExpression.ts:28-42 | `serialize` returns the name with the serialised arguments in parentheses and reaches the context state `SerializeSpec` describes, nested expressions sharing the context and keeping its substitution invariant |
| FunctionExpression.SerializeValid | packages/dynamodb-expressions/src/FunctionExpression.ts:28-42 | serialising keeps the substitution invariant of the context |
| FunctionExpression.SerializeExtends | packages/dynamodb-expressions/src/FunctionExpression.ts:28-42 | serialising only adds: substituted names and values keep their placeholders and the counter never goes back |
| FunctionExpression.ExamplePathThenValue | packages/dynamodb-expressions/src/FunctionExpression.ts:28-42 | placeholders are numbered in argument order: `foo(#attr0, :val1)` |
| FunctionExpression.ExampleNestedInner | packages/dynamodb-expressions/src/FunctionExpression.ts:34-36 | a nested expression naming an already substituted path reuses its placeholder and changes nothing |
| FunctionExpression.ExampleNested | packages/dynamodb-expressions/src/FunctionExpression.ts:28-42 | a path repeated inside nested calls reuses its placeholder: `foo(#attr0, :val1, fizz(buzz(#attr0)))` |
| ItemIdentifier.BytesText | packages/dynamodb-batch-iterator/src/itemIdentifier.ts:30 | a byte array renders as the empty string exactly when it has no bytes |
| ItemIdentifier.KeyPart | packages/dynamodb-batch-iterator/src/itemIdentifier.ts:28-35 | an attribute contributes a part exactly when it is binary (even empty) or a non-empty number or string, and the part starts with `name=` |
| ItemIdentifier.KeyTypeParts | packages/dynamodb-batch-iterator/src/itemIdentifier.ts:27-36 | at most one part per property name |
| ItemIdentifier.SerializeKeyTypeAttributes | packages/dynamodb-batch-iterator/src/itemIdentifier.ts:25-39 | the loop over the sorted property names builds exactly `Serialized`, the parts joined with `&` |
| ItemIdentifier.Identifier | packages/dynamodb-batch-iterator/src/itemIdentifier.ts:10-23 | throws exactly when the request has neither a delete key nor a put item, with the source's message; a delete request wins and is prefixed `table::delete::`, otherwise `table::put::` |
| ItemIdentifier.KeyTypePartsMembers | packages/dynamodb-batch-iterator/src/itemIdentifier.ts:27-36 | every part comes from one of the names, and every name whose attribute contributes has its part in the output |
| ItemIdentifier.KeyTypePartsSameLookups | packages/dynamodb-batch-iterator/src/itemIdentifier.ts:28 | the parts depend only on what each name looks up |
| ItemIdentifier.SerializedIgnoresOrder | packages/dynamodb-batch-iterator/src/itemIdentifier.ts:27 | two attribute maps with the same bindings give the same string, whatever their insertion order |
| ItemIdentifier.DeleteAndPutDiffer | packages/dynamodb-batch-iterator/src/itemIdentifier.ts:14-20 | a delete request and a put request on the same table never share an identifier |
| ItemIdentifier.SerializedCollides | packages/dynamodb-batch-iterator/src/itemIdentifier.ts:38 | values are not escaped: `{a: "1&b=2"}` and `{a: "1", b: "2"}` serialise alike |
| ItemIterators.Flatten | packages/dynamodb-query-iterator/src/ItemIterator.ts:116 | the items of the pages, in order, number exactly the items the paginator counted |
| ItemIterators.FlattenSnoc | packages/dynamodb-query-iterator/src/ItemIterator.ts:116 | pushing a page's items appends them after those of the earlier pages |
| ItemIterators.ItemIterator.constructor | packages/dynamodb-query-iterator/src/ItemIterator.ts:13-21 | a new iterator has an empty buffer and has handed out nothing |
| ItemIterators.ItemIterator.Count | packages/dynamodb-query-iterator/src/ItemIterator.ts:43-45 | `count` is the number of items handed out |
| ItemIterators.ItemIterator.Next | packages/dynamodb-query-iterator/src/ItemIterator.ts:50-53 | a rejected iterator rejects again; a non-empty buffer hands out its head without touching the paginator; every yielded item extends the items handed out, which with the buffer are always exactly the items of the pages received; done only when the buffer is empty and the paginator is done |
| ItemIterators.ItemIterator.Shift | packages/dynamodb-query-iterator/src/ItemIterator.ts:103-109 | the head of the buffer is handed out and counted |
| ItemIterators.ItemIterator.FetchPage | packages/dynamodb-query-iterator/src/ItemIterator.ts:111-117 | one refill asks the paginator for a page and pushes its items; a rejection is remembered; every refill moves the paginator strictly closer to its end |
| ItemIterators.ItemIterator.Pages | packages/dynamodb-query-iterator/src/ItemIterator.ts:64-73 | `pages()` hands over the paginator and makes every later `next()` reject with the detachment message |
| ItemIterators.ItemIterator.Return | packages/dynamodb-query-iterator/src/ItemIterator.ts:78-90 | `return()` empties the buffer, interrupts the paginator and makes every later `next()` reject |
| KeysFromSchema.KeysFromSchema | packages/dynamodb-data-marshaller/src/keysFromSchema.ts:14-50 | the loop over the schema's properties computes exactly `KeysFromSchemaSpec`: the three maps, or the first error thrown |
| KeysFromSchema.AddFieldKeys | packages/dynamodb-data-marshaller/src/keysFromSchema.ts:20-46 | the loop body for one field is the step `FieldKeys` |
| KeysFromSchema.AddIndexKeysLoop | packages/dynamodb-data-marshaller/src/keysFromSchema.ts:38-44 | the inner loop over a field's index configurations creates missing index entries and records the key type under the attribute name |
| KeysFromSchema.ErrSticky | packages/dynamodb-data-marshaller/src/keysFromSchema.ts:19-47 | once a field throws, the whole call throws that error |
| KeysFromSchema.FieldKeysEffect | packages/dynamodb-data-marshaller/src/keysFromSchema.ts:28-45 | one field sets its table key type when `isKey` accepts it for the table, records its scalar type when it declares any key and leaves other attribute names alone, and adds its index configurations when it is keyable |
| KeysFromSchema.NonKeyableIgnored | packages/dynamodb-data-marshaller/src/keysFromSchema.ts:21-27 | fields that are not Binary, Custom, Date, Number or String contribute nothing: dropping them changes no map |
| KeysFromSchema.ThrowsIffUntypedCustomKey | packages/dynamodb-data-marshaller/src/keysFromSchema.ts:59-65 | the call throws exactly when some field declaring a key is a custom field without an attribute type, with the source's message |
| KeysFromSchema.KeysFromSchemaCovered | packages/dynamodb-data-marshaller/src/keysFromSchema.ts:30-45 | every table key and every index key name also has an entry in `attributes` |
| KeysFromSchema.AddIndexKeysGet | packages/dynamodb-data-marshaller/src/keysFromSchema.ts:38-44 | after one field's configurations, each index holds the field's key type under its name if it configures that index, and is otherwise unchanged |
| KeysFromSchema.TableKeysAgree | packages/dynamodb-data-marshaller/src/keysFromSchema.ts:30-33 | the table keys are exactly those of the reference definition in which the last field stored under a name decides its entry |
| KeysFromSchema.AttributesAgree | packages/dynamodb-data-marshaller/src/keysFromSchema.ts:30-37 | the attribute types are exactly those of the reference definition |
| KeysFromSchema.IndexKeysAgree | packages/dynamodb-data-marshaller/src/keysFromSchema.ts:35-45 | an index has an entry exactly when some keyable field configures it, and its keys are exactly those of the reference definition |
| KeysFromSchema.TableKeyIffIsKey | packages/dynamodb-data-marshaller/src/isKey.ts:3-17 | a name is a table key exactly when some field that `isKey` accepts for the table is stored under it |
| KeysFromSchema.IndexKeyIffIsKey | packages/dynamodb-data-marshaller/src/isKey.ts:3-17 | a name has an entry for an index exactly when some field that `isKey` accepts for that index is stored under it |
| Pagination.PageSize | packages/dynamodb-query-iterator/src/DynamoDbPaginator.ts:102-111 | without an overall limit the requested size is kept; with one, the size never exceeds what is left of the limit nor the requested size, and is one of the two |
| Pagination.ScanStart | packages/dynamodb-query-iterator/src/ScanPaginator.ts:10-16 | a scan paginator stores its input with `Limit` already capped by the overall limit |
| Pagination.QueryStart | packages/dynamodb-query-iterator/src/QueryPaginator.ts:10-13 | a query paginator stores a plain copy of its input |
| Pagination.Advance | packages/dynamodb-query-iterator/src/DynamoDbPaginator.ts:52-76 | a rejected paginator rejects again with the same error and changes nothing; a reached limit or an exhausted cursor finishes without sending; a rejection is remembered; a yielded page is the response to the stored request with only its `Limit` rewritten |
| Pagination.Resume | packages/dynamodb-query-iterator/src/ScanPaginator.ts:27-33 | the cursor continues from the page's `LastEvaluatedKey` exactly when the page has one, and is cleared otherwise |
| Pagination.Absorb | packages/dynamodb-query-iterator/src/DynamoDbPaginator.ts:61-71 | a received page adds its items to `count` and its `ScannedCount` to `scannedCount`, sets the last key, merges the capacity and rejects exactly when the merge throws |
| Pagination.AdvanceAccounts | packages/dynamodb-query-iterator/src/DynamoDbPaginator.ts:52-76 | `next()` keeps the invariant that the counters, last key, capacity and cursor are exactly those of the pages received so far |
| Pagination.AdvanceRespectsLimit | packages/dynamodb-query-iterator/src/DynamoDbPaginator.ts:102-111 | no request asks for more than what is left of the overall limit; without a limit the stored request is sent unchanged |
| Pagination.AdvanceStaysWithinLimit | packages/dynamodb-query-iterator/src/DynamoDbPaginator.ts:54-58 | when DynamoDB honours `Limit`, `count` never goes past the overall limit |
| Pagination.AdvanceYield | packages/dynamodb-query-iterator/src/QueryPaginator.ts:15-36 | a yielded page came from the stored request with its page size recomputed, and the cursor now resumes from the page's key or is cleared |
| Pagination.AdvanceProgresses | packages/dynamodb-query-iterator/src/ScanPaginator.ts:18-39 | over a table where continuation keys make progress, every yielded page strictly shrinks what is left of the scan or query |
| Pagination.Paginator.Scan | packages/dynamodb-query-iterator/src/ScanPaginator.ts:10-16 | a new scan paginator starts from `ScanStart` with no pages received |
| Pagination.Paginator.Query | packages/dynamodb-query-iterator/src/QueryPaginator.ts:10-13 | a new query paginator starts from `QueryStart` with no pages received |
| Pagination.Paginator.Next | packages/dynamodb-query-iterator/src/DynamoDbPaginator.ts:52-76 | `next()` returns the result `Advance` describes, moves to its state and records the received page, keeping the accounting invariant |
| Pagination.Paginator.GetNext | packages/dynamodb-query-iterator/src/ScanPaginator.ts:18-44 | `getNext()` finishes without a cursor; otherwise it sends the stored request with its page size recomputed, and on a response yields the page and resumes the cursor from its key; no counter changes |
| Pagination.Paginator.Return | packages/dynamodb-query-iterator/src/DynamoDbPaginator.ts:81-93 | `return()` finishes and makes every later `next()` reject with the interruption message |
| ParallelScan.NullScanState | packages/dynamodb-query-iterator/src/ParallelScanPaginator.ts:204-206 | the default scan state has one entry per segment, every one uninitialized |
| ParallelScan.SegmentRequest | packages/dynamodb-query-iterator/src/ParallelScanPaginator.ts:73-77 | a segment's request is the input with `Segment` set to the segment and `ExclusiveStartKey` to the saved key, and nothing else changed |
| ParallelScan.Cursor | packages/dynamodb-query-iterator/src/ParallelScanPaginator.ts:80-84 | a segment has a request to send exactly when it is uninitialized or has a saved key |
| ParallelScan.SegmentStartsAtCursor | packages/dynamodb-query-iterator/src/ParallelScanPaginator.ts:72-85 | each segment's scan paginator starts at its request, which is the cursor of every armed segment |
| ParallelScan.ResumeMatchesState | packages/dynamodb-query-iterator/src/ParallelScanPaginator.ts:161-164 | after a page, the segment's paginator resumes exactly where the recorded scan state says it does |
| ParallelScan.Without | packages/dynamodb-query-iterator/src/ParallelScanPaginator.ts:167-171 | removing a segment from the queue keeps every other entry and no entry for that segment, and keeps the queue free of repeats |
| ParallelScan.WithoutShorter | packages/dynamodb-query-iterator/src/ParallelScanPaginator.ts:167-171 | removing a queued segment shortens the queue, so the recursion of `getNext` ends |
| ParallelScan.ParallelScanPaginator.Build | packages/dynamodb-query-iterator/src/ParallelScanPaginator.ts:71-87 | one scan paginator per segment, started at its request; the queue holds, in segment order, exactly the armed segments; the scan state is kept as given |
| ParallelScan.ParallelScanPaginator.Create | packages/dynamodb-query-iterator/src/ParallelScanPaginator.ts:56-69 | the scan state defaults to all-uninitialized; a state of the wrong length throws the source's message; otherwise the paginator `Build` describes |
| ParallelScan.ParallelScanPaginator.RemovePending | packages/dynamodb-query-iterator/src/ParallelScanPaginator.ts:167-171 | the backwards splice loop removes exactly the segment's entries, as `Without` |
| ParallelScan.AnswerKeepsCoherent | packages/dynamodb-query-iterator/src/ParallelScanPaginator.ts:158-171 | recording a queued segment's page (its new state, its key, back of the queue) or its end (out of the queue, no key) keeps every per-segment invariant of the paginator |
| ParallelScan.DoneKeepsBookkept | packages/dynamodb-query-iterator/src/ParallelScanPaginator.ts:165-171 | a segment leaving the queue after answering that it is finished keeps the record of what `next()` has done |
| ParallelScan.ParallelScanPaginator.TakeAnswer | packages/dynamodb-query-iterator/src/ParallelScanPaginator.ts:158-171 | one settled promise: the segment's paginator takes its answer; a rejection is kept with the scan state and queue unchanged; a finished segment leaves the queue with no key recorded; a page re-queues the segment at the back with the page's key recorded |
| ParallelScan.ParallelScanPaginator.GetScanState | packages/dynamodb-query-iterator/src/ParallelScanPaginator.ts:142-144 | the snapshot is the scan state; until a rejection, every armed segment's paginator sends exactly what a paginator rebuilt from the snapshot would send first, and every queued unarmed segment has nothing left to send; before `return()`, every armed segment is queued |
| ParallelScan.ParallelScanPaginator.Next | packages/dynamodb-query-iterator/src/ParallelScanPaginator.ts:146-184 | a kept rejection is repeated; an empty queue is done, and done means the queue is empty; a yielded page is the answer of a segment that was queued, which is now last in the queue with its paginator advanced and its scan state recording the page's key; a rejection is the answer of a queued segment and is kept; every segment that left the queue had answered that it was finished and is recorded as initialized with no key; segments not queued are untouched and no segment joins the queue |
| ParallelScan.ParallelScanPaginator.Return | packages/dynamodb-query-iterator/src/ParallelScanPaginator.ts:126-129 | `return()` empties the queue and interrupts every segment's paginator, keeping the scan state |
| AutoMarshaller.MarshallBinaryValue | packages/dynamodb-auto-marshaller/src/Marshaller.ts:271-279 | a non-empty byte string always becomes a `B` attribute |
| AutoMarshaller.ListSpec | packages/dynamodb-auto-marshaller/src/Marshaller.ts:281-291 | a marshalled list never has more entries than the iterable, since undefined results are dropped |
| AutoMarshaller.CollectSpec | packages/dynamodb-auto-marshaller/src/Marshaller.ts:353-375 | every member `collectSet` keeps has the set's kind, and outside `leave` none of them is empty |
| AutoMarshaller.SetOf | packages/dynamodb-auto-marshaller/src/Marshaller.ts:200-207 | `new Set` over a list holds exactly the list's values |
| AutoMarshaller.BigInts | packages/dynamodb-auto-marshaller/src/Marshaller.ts:219 | `NS.map(BigInt)` gives one bigint per number text |
| AutoMarshaller.UnmarshallList | packages/dynamodb-auto-marshaller/src/Marshaller.ts:226-228 | a list reads back as one value per entry |
| AutoMarshaller.MarshallList | packages/dynamodb-auto-marshaller/src/Marshaller.ts:281-291 | the loop of `marshallList` builds exactly the `L` attribute `ListSpec` describes, or its first error |
| AutoMarshaller.MarshallMap | packages/dynamodb-auto-marshaller/src/Marshaller.ts:293-313 | the loop of `marshallMap` builds exactly the `M` attribute `MapSpec` describes, or its first error |
| AutoMarshaller.MarshallObject | packages/dynamodb-auto-marshaller/src/Marshaller.ts:315-326 | the loop of `marshallObject` builds exactly the `M` attribute `ObjectSpec` describes, or its first error |
| AutoMarshaller.CollectSet | packages/dynamodb-auto-marshaller/src/Marshaller.ts:353-384 | the loop of `collectSet` gives exactly `CollectSetSpec`: the kept members under the set's tag, or `NULL`, or nothing, or the mismatch error |
| AutoMarshaller.DefaultOptions | packages/dynamodb-auto-marshaller/src/Marshaller.ts:108-116 | with no options, an empty string is kept, a function throws, and numbers are read back as bigints |
| AutoMarshaller.DefaultBigInt | packages/dynamodb-auto-marshaller/src/Marshaller.ts:184-186 | without `unwrapNumbers`, a number text is read back as a bigint |
| AutoMarshaller.EmptyStringPolicy | packages/dynamodb-auto-marshaller/src/Marshaller.ts:386-395 | a non-empty string is an `S`; the empty string is kept under `leave`, nullified under `nullify` and dropped under `omit` |
| AutoMarshaller.InvalidValuePolicy | packages/dynamodb-auto-marshaller/src/Marshaller.ts:155-161 | a function or symbol throws "Cannot serialize values of the … type" exactly under `throw`, and is dropped otherwise |
| AutoMarshaller.StringKeyed | packages/dynamodb-auto-marshaller/src/Marshaller.ts:295-300 | the entries of a `Map` with string keys, in order |
| AutoMarshaller.MapOmitsNonStringKeys | packages/dynamodb-auto-marshaller/src/Marshaller.ts:295-300 | under `omit`, a `Map` marshals as if its non-string-keyed entries were absent |
| AutoMarshaller.MapThrowsOnNonStringKey | packages/dynamodb-auto-marshaller/src/Marshaller.ts:301-303 | under `throw`, a `Map` with a non-string key does not marshal |
| AutoMarshaller.CollectKeeps | packages/dynamodb-auto-marshaller/src/Marshaller.ts:360-375 | `collectSet` fails exactly when a member of another kind is met under `throw`; otherwise it keeps the members of the set's kind that are non-empty (all of them under `leave`), in order |
| AutoMarshaller.NoMembersRemain | packages/dynamodb-auto-marshaller/src/Marshaller.ts:377-383 | a set left with no members is tagged empty under `leave`, nullified under `nullify` and omitted under `omit` |
| AutoMarshaller.EmptyStringSet | packages/dynamodb-auto-marshaller/src/Marshaller.ts:336-338 | a set holding only `''` marshals to `SS` `['']`, to `NULL` or to nothing, by `onEmpty` |
| AutoMarshaller.EmptyStringMember | packages/dynamodb-auto-marshaller/src/Marshaller.ts:372-374 | `''` is kept as a set member only under `leave` |
| AutoMarshaller.EmptySet | packages/dynamodb-auto-marshaller/src/Marshaller.ts:345-349 | an empty set is nullified under `nullify` and dropped under both other policies |
| AutoMarshaller.MarshallItemContract | packages/dynamodb-auto-marshaller/src/Marshaller.ts:122-129 | `marshallItem` throws exactly when marshalling throws, or when the value is not a map under `throw`; otherwise it gives the map, or `{}` |
| AutoMarshaller.StringIsNotAnItem | packages/dynamodb-auto-marshaller/src/Marshaller.ts:124-126 | a string is not an item: "Cannot serialize string as an attribute map" under `throw`, `{}` otherwise |
| AutoMarshaller.NotAMap | packages/dynamodb-auto-marshaller/src/Marshaller.ts:124-126 | any value that marshals to a non-map attribute is rejected under `throw` with its `typeof` in the message, and gives `{}` otherwise |
| AutoMarshaller.NumberUnmarshalling | packages/dynamodb-auto-marshaller/src/Marshaller.ts:184-186 | a number text reads back as a `number` under `unwrapNumbers` and as a bigint otherwise; an unparsable text is `NaN` as a number and throws as a bigint |
| AutoMarshaller.UnknownIsEmptyObject | packages/dynamodb-auto-marshaller/src/Marshaller.ts:230-231 | an attribute with none of the known tags reads back as `{}` |
| AutoMarshaller.SetOfDistinct | packages/dynamodb-auto-marshaller/src/Marshaller.ts:200-207 | building a `Set` from distinct values keeps them all, in order |
| AutoMarshaller.KeptAll | packages/dynamodb-auto-marshaller/src/Marshaller.ts:372-374 | under `leave`, a set whose members all have its kind keeps them all |
| AutoMarshaller.SetMarshalsWhole | packages/dynamodb-auto-marshaller/src/Marshaller.ts:328-338 | a non-empty set whose members share a kind marshals to its tag holding every member |
| AutoMarshaller.RoundTrip | packages/dynamodb-auto-marshaller/src/Marshaller.ts:137-232 | under `leave` and `unwrapNumbers`, `unmarshallValue(marshallValue(v))` gives back every plain value: scalars, arrays, objects with distinct keys and non-empty sets of distinct members |
| AutoMarshaller.RoundTripScalar | packages/dynamodb-auto-marshaller/src/Marshaller.ts:137-151 | booleans, integral numbers, `NaN`, strings, binaries and `null` survive the round trip |
| AutoMarshaller.RoundTripArray | packages/dynamodb-auto-marshaller/src/Marshaller.ts:264-265 | an array of plain values survives the round trip as an `L` |
| AutoMarshaller.RoundTripPlainObject | packages/dynamodb-auto-marshaller/src/Marshaller.ts:315-326 | an object of plain values with distinct keys survives the round trip as an `M` |
| AutoMarshaller.ObjectMarshals | packages/dynamodb-auto-marshaller/src/Marshaller.ts:268 | a plain object is marshalled by `marshallObject` |
| AutoMarshaller.ObjectUnmarshals | packages/dynamodb-auto-marshaller/src/Marshaller.ts:230-231 | an `M` reads back as the object of its unmarshalled entries |
| AutoMarshaller.RoundTripSet | packages/dynamodb-auto-marshaller/src/Marshaller.ts:328-338 | a non-empty set of distinct strings or numbers survives the round trip |
| AutoMarshaller.RoundTripStringSet | packages/dynamodb-auto-marshaller/src/Marshaller.ts:200-207 | a string set marshals to `SS` and reads back as the same set |
| AutoMarshaller.RoundTripNumberSet | packages/dynamodb-auto-marshaller/src/Marshaller.ts:209-217 | a number set marshals to `NS` and reads back, under `unwrapNumbers`, as the same set |
| AutoMarshaller.NumberTextsBack | packages/dynamodb-auto-marshaller/src/Marshaller.ts:213 | `Number` of each stringified member gives the member back |
| AutoMarshaller.RoundTripBinarySet | packages/dynamodb-auto-marshaller/src/Marshaller.ts:222-224 | a `BinarySet` of distinct non-empty values survives the round trip |
| AutoMarshaller.BinarySetMarshals | packages/dynamodb-auto-marshaller/src/Marshaller.ts:330-331 | a `BinarySet` of non-empty values marshals to a `BS` holding every value |
| AutoMarshaller.BinarySetUnmarshals | packages/dynamodb-auto-marshaller/src/Marshaller.ts:222-224 | a `BS` of distinct values reads back as the `BinarySet` of those values |
| AutoMarshaller.RoundTripList | packages/dynamodb-auto-marshaller/src/Marshaller.ts:281-291 | marshalling plain elements keeps every one, and reading the list back gives the elements |
| AutoMarshaller.ListRoundTripStep | packages/dynamodb-auto-marshaller/src/Marshaller.ts:283-288 | the round trip of the last element extends the round trip of the others |
| AutoMarshaller.RoundTripObject | packages/dynamodb-auto-marshaller/src/Marshaller.ts:318-323 | marshalling plain properties keeps every key, and reading the map back gives the properties |
| AutoMarshaller.ObjectRoundTripStep | packages/dynamodb-auto-marshaller/src/Marshaller.ts:318-323 | the round trip of the last property extends the round trip of the others |
| AutoMarshaller.ObjectStep | packages/dynamodb-auto-marshaller/src/Marshaller.ts:319-322 | a property whose value marshals is stored under its key, after the others |
| AutoMarshaller.EntriesStep | packages/dynamodb-auto-marshaller/src/Marshaller.ts:231 | `Object.fromEntries` appends each read-back entry under its key |
| Values.TypeOf | packages/dynamodb-auto-marshaller/src/Marshaller.ts:125 | `typeof` answers "object" exactly for the values that are not undefined, booleans, numbers, bigints, strings, functions or symbols |
| Values.NumberText | packages/dynamodb-auto-marshaller/src/Marshaller.ts:142-145 | the decimal text of a number or bigint parses back to that integer |
| Values.NumberOf | packages/dynamodb-auto-marshaller/src/Marshaller.ts:185 | `Number(text)` of an integer literal is that number, of any other non-empty text `NaN` |
| Values.BigIntOf | packages/dynamodb-auto-marshaller/src/Marshaller.ts:186 | `BigInt(text)` succeeds exactly on the empty text and integer literals, giving their value, and otherwise throws `Cannot convert … to a BigInt` |
| Values.NumberOfText | packages/dynamodb-auto-marshaller/src/Marshaller.ts:142-145 | `Number(String(n))` gives back every integral number `n` |
| Values.Get | packages/dynamodb-auto-marshaller/src/Marshaller.ts:319 | reading `obj[k]` finds nothing exactly when `k` is not a key |
| Values.Put | packages/dynamodb-auto-marshaller/src/Marshaller.ts:321 | `obj[k] = v` keeps the shape for an existing key and appends a new key |
| Values.GetPut | packages/dynamodb-auto-marshaller/src/Marshaller.ts:321 | after `obj[k] = v`, `k` reads `v` and every other key reads what it read before |
| Values.KeysPut | packages/dynamodb-auto-marshaller/src/Marshaller.ts:321 | `obj[k] = v` adds `k` to the keys exactly when it was absent |
| Values.PutKeepsDistinct | packages/dynamodb-auto-marshaller/src/Marshaller.ts:321 | an assignment never duplicates a key |
| Values.GetDistinct | packages/dynamodb-auto-marshaller/src/Marshaller.ts:319 | with distinct keys, each key reads the value stored with it |
| Values.GetSnoc | packages/dynamodb-auto-marshaller/src/Marshaller.ts:319 | appending an entry changes only the reading of a key that was absent |
| Values.PutLookups | packages/dynamodb-auto-marshaller/src/Marshaller.ts:319 | storing the values of distinct names one at a time makes every name read its own value |
| Text.NatToString | packages/dynamodb-auto-marshaller/src/Marshaller.ts:446 | the decimal rendering of a natural number is a non-empty digit string, one digit long exactly below ten |
| Text.IntToString | packages/dynamodb-auto-marshaller/src/Marshaller.ts:446 | a negative number renders as "-" and the rendering of its magnitude |
| Text.ParseNat | packages/dynamodb-auto-marshaller/src/Marshaller.ts:185 | a text denotes a natural number exactly when it is a non-empty digit string |
| Text.ParseNatToString | packages/dynamodb-auto-marshaller/src/Marshaller.ts:446 | parsing undoes the decimal rendering of a natural number |
| Text.NatToStringInjective | packages/dynamodb-auto-marshaller/src/Marshaller.ts:446 | different numbers never share a rendering |
| Text.ParseInt | packages/dynamodb-auto-marshaller/src/Marshaller.ts:185 | a text is an integer literal exactly when it is a digit string, optionally after one sign |
| Text.ParseIntToString | packages/dynamodb-auto-marshaller/src/Marshaller.ts:446 | parsing undoes the decimal rendering of every integer |
| Text.Join | packages/dynamodb-expressions/src/ProjectionExpression.ts:24 | `join` of no parts is empty and of one part is that part |
| Text.JoinSnoc | packages/dynamodb-expressions/src/ProjectionExpression.ts:24 | joining one more part appends the separator and the part |
| Text.Insert | packages/dynamodb-data-mapper/src/DataMapper.ts:1191 | inserting a string keeps every string and adds the new one |
| Text.InsertSorted | packages/dynamodb-data-mapper/src/DataMapper.ts:1191 | inserting into a sorted list keeps it sorted |
| Text.SortStringsCorrect | packages/dynamodb-data-mapper/src/DataMapper.ts:1191 | `sort()` with no comparator yields an ascending permutation of its input |
| Text.SortedUnique | packages/dynamodb-data-mapper/src/DataMapper.ts:1191 | two ascending lists holding the same strings are the same list |
| Text.SortIgnoresOrder | packages/dynamodb-batch-iterator/src/itemIdentifier.ts:27 | the sorted keys depend only on which keys there are, not on their order |
| Text.StrLessEqTotal | packages/dynamodb-data-mapper/src/DataMapper.ts:1191 | any two strings are ordered one way or the other |
| Text.StrLessEqTrans | packages/dynamodb-data-mapper/src/DataMapper.ts:1191 | the string order is transitive |
| Text.StrLessEqAntisym | packages/dynamodb-data-mapper/src/DataMapper.ts:1191 | strings ordered both ways are equal |
| Conditions.ConjoinHolds | packages/dynamodb-data-mapper/src/DataMapper.ts:776-778 | `condition ? And([condition, extra]) : extra` holds exactly when the earlier condition (if any) and the new one both hold |
| Folds.CollectAll | packages/dynamodb-data-marshaller/src/unmarshallItem.ts:140-147 | a loop that throws on the first failing element succeeds exactly when every element succeeds, and then yields every element's value in order |
| Folds.GatherAll | packages/dynamodb-data-marshaller/src/marshallItem.ts:125-135 | a loop that drops undefined results succeeds exactly when every element succeeds, never yields more than it was given, and yields every value in order when none is undefined |
| Folds.GatherMembers | packages/dynamodb-data-marshaller/src/marshallItem.ts:127-132 | the kept values are exactly the defined results |
| Folds.GatherKeeps | packages/dynamodb-data-marshaller/src/marshallItem.ts:129-131 | every defined result is kept |
| Folds.GatherSource | packages/dynamodb-data-marshaller/src/marshallItem.ts:129-131 | every kept value comes from some element's defined result |
| Folds.AssembleFields | packages/dynamodb-data-marshaller/src/marshallItem.ts:21-28 | an object built key by key succeeds exactly when every field succeeds; its keys are distinct and come from the fields; with distinct field keys, each key reads its field's value, or nothing when the value is undefined |
| Folds.AssembleDefined | packages/dynamodb-data-marshaller/src/marshallItem.ts:21-28 | the object builds exactly when no field throws |
| Folds.AssembleStep | packages/dynamodb-data-marshaller/src/marshallItem.ts:24-27 | the last field is stored with `obj[k] = v` only when its value is defined |
| Folds.AssembleKeys | packages/dynamodb-data-marshaller/src/marshallItem.ts:26 | assembled keys are distinct and all come from the fields |
| Folds.AssembleLookups | packages/dynamodb-data-marshaller/src/marshallItem.ts:26 | with distinct field keys, every key reads its field's value |
| Folds.Defined | packages/dynamodb-data-marshaller/src/marshallItem.ts:21-28 | the fields with their defined values, in order and under the same keys |
| Folds.AssembleAll | packages/dynamodb-data-marshaller/src/marshallItem.ts:21-28 | distinct fields that are all defined assemble to exactly those fields, in order |
| Folds.AssembleAppends | packages/dynamodb-data-marshaller/src/marshallItem.ts:26 | a defined field under a new key is appended after the others |
| BinarySets.Content | packages/dynamodb-auto-marshaller/src/BinarySet.ts:88-92 | a view's bytes are its window, `byteLength` long |
| BinarySets.Contents | packages/dynamodb-auto-marshaller/src/BinarySet.ts:88-92 | the bytes of each value, in order |
| BinarySets.BinarySetOf | packages/dynamodb-auto-marshaller/src/BinarySet.ts:16-33 | `new BinarySet(values)` holds exactly the non-empty byte strings among the values |
| BinarySets.Without | packages/dynamodb-auto-marshaller/src/BinarySet.ts:35-45 | filtering never lengthens the set |
| BinarySets.BinarySet.constructor | packages/dynamodb-auto-marshaller/src/BinarySet.ts:16-19 | the new set holds the iterable's non-empty values, each content once, in first-seen order, and the set holds no empty and no repeated contents |
| BinarySets.BinarySet.Add | packages/dynamodb-auto-marshaller/src/BinarySet.ts:29-33 | `add` appends a non-empty value whose content is new, and otherwise changes nothing; the set stays free of empty and repeated contents |
| BinarySets.BinarySet.Has | packages/dynamodb-auto-marshaller/src/BinarySet.ts:61-71 | `has` answers whether some stored value has the same bytes, whatever view or buffer holds them |
| BinarySets.BinarySet.Delete | packages/dynamodb-auto-marshaller/src/BinarySet.ts:35-45 | `delete` removes every value with the same bytes, and answers whether there was one |
| BinarySets.BinaryEquals | packages/dynamodb-auto-marshaller/src/BinarySet.ts:74-86 | the byte-by-byte comparison answers exactly whether the two contents are equal |
| BinarySets.AddKeepsValid | packages/dynamodb-auto-marshaller/src/BinarySet.ts:29-33 | appending a new non-empty content keeps the set free of empty and repeated contents |
| BinarySets.WithoutMembers | packages/dynamodb-auto-marshaller/src/BinarySet.ts:37-39 | a value survives `delete` exactly when its bytes differ from the deleted ones |
| BinarySets.WithoutShrinks | packages/dynamodb-auto-marshaller/src/BinarySet.ts:41-44 | `delete` shortens the set exactly when the set held those bytes |
| BinarySets.WithoutKeepsValid | packages/dynamodb-auto-marshaller/src/BinarySet.ts:35-45 | `delete` keeps the set free of empty and repeated contents |
| BinarySets.DeletedIsGone | packages/dynamodb-auto-marshaller/src/BinarySet.ts:35-45 | after `delete`, the set does not hold the deleted bytes |
| BinarySets.AddIdempotent | packages/dynamodb-auto-marshaller/src/BinarySet.ts:29-33 | adding the same value twice is adding it once, and adding an empty value does nothing |
| BinarySets.ViewAndBufferAgree | packages/dynamodb-auto-marshaller/src/BinarySet.ts:47-60 | a view and a buffer holding the same bytes are the same member |
| BinarySets.FromSpecContents | packages/dynamodb-auto-marshaller/src/BinarySet.ts:16-19 | the contents of a set built from values are `BinarySetOf` their contents |
| BinarySets.BinarySetOfDistinct | packages/dynamodb-auto-marshaller/src/BinarySet.ts:16-19 | distinct non-empty contents are kept as given, in order |
| SchemaTypes.GetSchemaName | packages/dynamodb-data-marshaller/src/toSchemaName.ts:31-39 | a property's attribute name is the schema's `attributeName` if it sets one, and the property name otherwise, including for a property not in the schema |
| SchemaTypes.ToSchemaName | packages/dynamodb-data-marshaller/src/toSchemaName.ts:5-29 | the path with every property name renamed along the schema, as `Rename` walks it |
| SchemaTypes.ToSchemaNameString | packages/dynamodb-data-marshaller/src/toSchemaName.ts:6-8 | a string path is parsed first, and a parse error is thrown as is |
| SchemaTypes.RenameName | packages/dynamodb-data-marshaller/src/toSchemaName.ts:17-20 | a property name inside a document is renamed and the walk descends into the property's schema |
| SchemaTypes.RenameIndex | packages/dynamodb-data-marshaller/src/toSchemaName.ts:21-22 | a list index inside a list is kept and the walk descends into the member type |
| SchemaTypes.RenameStop | packages/dynamodb-data-marshaller/src/toSchemaName.ts:23-24 | any other element ends the walk and leaves the rest of the path as it is |
| SchemaTypes.RenameShape | packages/dynamodb-data-marshaller/src/toSchemaName.ts:10 | renaming keeps the path's length, which elements are indexes, and every index |
| SchemaTypes.UnknownPropertyUnchanged | packages/dynamodb-data-marshaller/src/toSchemaName.ts:31-39 | a path starting at a property the schema does not know is left unchanged |
| SchemaTypes.TerminalNodeStops | packages/dynamodb-data-marshaller/src/toSchemaName.ts:23-24 | below a property that is neither a document nor a list, only the first name is renamed |
| SchemaTypes.NestedRenameExample | packages/dynamodb-data-marshaller/tests/toSchemaName.spec.ts:76-79 | `bar[1].itchy[23][2].nameToReplace` becomes `topLevelBar[1].scratchy[23][2].replacementName` |
| SchemaTypes.AttributeType | packages/dynamodb-data-marshaller/src/keysFromSchema.ts:52-75 | Binary is `B`, Date and Number are `N`, String is `S`, a custom field its declared type, and a custom field without one throws "Invalid schema: no attribute type defined for custom field" |
| SchemaTypes.NonKeyableNeverKey | packages/dynamodb-data-marshaller/src/isKey.ts:4-16 | only Binary, Custom, Date, Number and String fields can be keys |
| SchemaTypes.IsKeyDependsOnlyOnItsConfiguration | packages/dynamodb-data-marshaller/src/isKey.ts:11-13 | with an index name, only the field's key configuration for that index counts; without one, only its table key type counts |
| SchemaTypes.TableAndIndexKey | packages/dynamodb-data-marshaller/tests/isKey.spec.ts:47-58 | a field that is both a table key and an index key is a key for the table and for that index, and not for another index |
| SchemaValidation.OwnValues | packages/dynamodb-data-marshaller/src/Schema.ts:7-19 | one value per own property of the object |
| SchemaValidation.InGraph | packages/dynamodb-data-marshaller/src/SchemaType.ts:342-385 | every node of a closed schema graph is a well-formed base type whose children all lie in the graph |
| SchemaValidation.Rejected | packages/dynamodb-data-marshaller/src/SchemaType.ts:346-384 | a value that is not a well-formed base type object belongs to no schema graph |
| SchemaValidation.IsSchemaType | packages/dynamodb-data-marshaller/src/SchemaType.ts:342-385 | a node already visited is accepted; an accepted node is visited and everything newly visited is justified; and every node some closed graph holding the visited set contains is accepted, without leaving that graph |
| SchemaValidation.IsDocumentType | packages/dynamodb-data-marshaller/src/SchemaType.ts:387-403 | a document is accepted exactly as its member schema types are, and only if it has a `members` object, within the same graph guarantees |
| SchemaValidation.IsTupleType | packages/dynamodb-data-marshaller/src/SchemaType.ts:405-421 | a tuple is accepted exactly as the schema types of its `members` array are, within the same graph guarantees |
| SchemaValidation.IsCollectionType | packages/dynamodb-data-marshaller/src/SchemaType.ts:366-371 | a list or map node is accepted exactly as its `memberType` is, within the same graph guarantees |
| SchemaValidation.IsLeafType | packages/dynamodb-data-marshaller/src/SchemaType.ts:353-380 | a keyable, custom, number or other leaf node is accepted exactly when its own fields are well-formed |
| SchemaValidation.IsMemberList | packages/dynamodb-data-marshaller/src/SchemaType.ts:396-400 | a list of members is accepted exactly when each is, each checked with the visited set the previous ones left |
| SchemaValidation.IsSchema | packages/dynamodb-data-marshaller/src/Schema.ts:7-19 | `isSchema` holds exactly for a truthy object every own property of which is a schema type |
| SchemaValidation.IsSchemaTypeFresh | packages/dynamodb-data-marshaller/src/SchemaType.ts:342-345 | with an empty visited set, `isSchemaType` accepts exactly the values some closed schema graph contains |
| SchemaValidation.SelfListIsSchemaType | packages/dynamodb-data-marshaller/src/SchemaType.ts:347-351 | a list node whose member type is itself is accepted, because the node is marked visited before its member type is checked |
| SchemaValidation.BadMemberRejected | packages/dynamodb-data-marshaller/src/SchemaType.ts:396-400 | a document with a member that is not a schema type is rejected |
| SchemaValidation.AsWrittenDiffersOnlyOnInherited | packages/dynamodb-data-marshaller/src/SchemaType.ts:81 | the `in TypeTags` and `in KeyTypes` tests as written accept everything the own-property tests accept, and more only for names every object inherits |
| SchemaValidation.InheritedTagAccepted | packages/dynamodb-data-marshaller/src/SchemaType.ts:81 | as written, `{type: 'toString'}` passes `isBaseType` although it is not a schema type, and `'constructor'` passes as a key type |
| DataMarshall.DateAt | packages/dynamodb-data-marshaller/src/marshallItem.ts:96-103 | `new Date(ms)` is a valid date exactly within ±8.64e15 ms, and then holds `ms` |
| DataMarshall.ToText | packages/dynamodb-data-marshaller/src/marshallItem.ts:237-239 | `toString()` throws on `null` and `undefined`; a string is itself and a number its decimal rendering |
| DataMarshall.PropertyKey | packages/dynamodb-data-marshaller/src/marshallItem.ts:143 | a string key is used as it is |
| DataMarshall.Iterate | packages/dynamodb-data-marshaller/src/marshallItem.ts:127 | `for … of` throws "value is not iterable" exactly on a non-iterable, and walks an array's elements or a set's members in order |
| DataMarshall.Prop | packages/dynamodb-data-marshaller/src/marshallItem.ts:22 | `input[key]` throws exactly on `null` and `undefined`, and on an object reads the key or `undefined` |
| DataMarshall.At | packages/dynamodb-data-marshaller/src/marshallItem.ts:213 | `input[i]` throws exactly on `null` and `undefined`, on an array reads the element, and on a plain object reads the property named by the index's digits |
| DataMarshall.MarshallOptions | packages/dynamodb-data-marshaller/src/marshallItem.ts:51 | absent options default to `nullify`, `omit` and no unwrapping |
| DataMarshall.BinaryBytes | packages/dynamodb-data-marshaller/src/marshallItem.ts:221-231 | a byte view is taken as it is |
| DataMarshall.ListFold | packages/dynamodb-data-marshaller/src/marshallItem.ts:125-135 | a marshalled list never has more elements than the input |
| DataMarshall.EntryResult | packages/dynamodb-data-marshaller/src/marshallItem.ts:140-145 | a `[key, value]` entry with a string key marshals its value under that key |
| DataMarshall.TupleFold | packages/dynamodb-data-marshaller/src/marshallItem.ts:210-216 | a marshalled tuple never has more elements than the schema has members |
| DataMarshall.BinaryValues | packages/dynamodb-data-marshaller/src/marshallItem.ts:171-178 | one binary value per byte string, in order |
| DataMarshall.SetMembers | packages/dynamodb-data-marshaller/src/marshallItem.ts:184 | a set is walked by its members; `null` and `undefined` are empty here |
| DataMarshall.BinaryMembers | packages/dynamodb-data-marshaller/src/marshallItem.ts:171 | a `BinarySet` is used as it is |
| DataMarshall.BytesFold | packages/dynamodb-data-marshaller/src/marshallItem.ts:173-175 | every element marshals to one byte string, or the first error is thrown |
| DataMarshall.CollectFold | packages/dynamodb-data-marshaller/src/marshallItem.ts:247-256 | `marshallSet` keeps at most the given members and never an empty one |
| DataMarshall.MarshallItem | packages/dynamodb-data-marshaller/src/marshallItem.ts:18-31 | the loop of `marshallItem` computes exactly the item the fold over the schema describes |
| DataMarshall.MarshallCollection | packages/dynamodb-data-marshaller/src/marshallItem.ts:76-93 | a Collection node marshals its elements with the auto-marshaller exactly as `marshallList` there does |
| DataMarshall.MarshallList | packages/dynamodb-data-marshaller/src/marshallItem.ts:125-135 | the loop over a List node's elements computes exactly `ListFold` |
| DataMarshall.MarshallMapEntries | packages/dynamodb-data-marshaller/src/marshallItem.ts:139-145 | the loop over an iterable Map input computes exactly `MapEntriesFold` |
| DataMarshall.MarshallMapObject | packages/dynamodb-data-marshaller/src/marshallItem.ts:146-152 | the loop over a plain object Map input computes exactly `MapObjectFold` |
| DataMarshall.MarshallSet | packages/dynamodb-data-marshaller/src/marshallItem.ts:241-263 | the loop of `marshallSet` computes exactly its specification: the non-empty marshalled members under the tag, or `NULL` when none remain |
| DataMarshall.BuildBinarySet | packages/dynamodb-data-marshaller/src/marshallItem.ts:171-178 | the loop that fills a `BinarySet` succeeds exactly when every item converts, and then holds the distinct non-empty byte strings |
| DataMarshall.AttributeNames | packages/dynamodb-data-marshaller/src/marshallItem.ts:23 | each schema entry's attribute name, in schema order |
| DataMarshall.FieldResults | packages/dynamodb-data-marshaller/src/marshallItem.ts:21-28 | one marshalled field per schema entry, stored under its attribute name |
| DataMarshall.ItemFoldAssembles | packages/dynamodb-data-marshaller/src/marshallItem.ts:21-28 | `marshallItem` is the assembly of its fields' results |
| DataMarshall.ItemFoldFields | packages/dynamodb-data-marshaller/src/marshallItem.ts:21-28 | a marshalled item has distinct keys taken from the attribute names, every field marshalled, and with distinct attribute names each reads its field's value |
| DataMarshall.ItemFoldReadsOnlySchema | packages/dynamodb-data-marshaller/src/marshallItem.ts:21-22 | `marshallItem` reads only the properties the schema names |
| DataMarshall.ListFoldAppend | packages/dynamodb-data-marshaller/src/marshallItem.ts:127-132 | marshalling a concatenated list is marshalling each part, the first error winning |
| DataMarshall.ListFoldSnoc | packages/dynamodb-data-marshaller/src/marshallItem.ts:127-132 | one more element adds its defined result, or its error |
| DataMarshall.ListFoldSingle | packages/dynamodb-data-marshaller/src/marshallItem.ts:127-132 | a one-element list contributes its element's result |
| DataMarshall.ListResults | packages/dynamodb-data-marshaller/src/marshallItem.ts:128 | one member result per element |
| DataMarshall.ListFoldGathers | packages/dynamodb-data-marshaller/src/marshallItem.ts:125-135 | a List node drops undefined results and throws the first error |
| DataMarshall.ListFoldAllDefined | packages/dynamodb-data-marshaller/src/marshallItem.ts:125-135 | when every element marshals to a value, the list holds them all, in order |
| DataMarshall.TupleResults | packages/dynamodb-data-marshaller/src/marshallItem.ts:213 | one result per schema member, read at its own index |
| DataMarshall.TupleFoldGathers | packages/dynamodb-data-marshaller/src/marshallItem.ts:210-216 | a Tuple node drops undefined results and throws the first error |
| DataMarshall.TupleFoldAllDefined | packages/dynamodb-data-marshaller/src/marshallItem.ts:210-216 | when every member marshals to a value, the tuple holds them all, in order |
| DataMarshall.CollectFoldMembers | packages/dynamodb-data-marshaller/src/marshallItem.ts:247-256 | with no failing member, every non-empty marshalled member is kept, everything kept is some member's marshalling, and nothing is kept exactly when every member marshals to an empty value |
| DataMarshall.TextSetMembers | packages/dynamodb-data-marshaller/src/marshallItem.ts:183-193 | a number or string set marshals to `NULL` exactly when it has no non-empty member, otherwise to `SS` of non-empty member texts or `NS` of member texts |
| DataMarshall.MarshallDateSeconds | packages/dynamodb-data-marshaller/src/marshallItem.ts:95-108 | a number of seconds is stored as is; a date is stored as its floor in seconds; anything else throws "Unable to convert value to date" |
| DataMarshall.ItemFoldAllDefined | packages/dynamodb-data-marshaller/src/marshallItem.ts:21-28 | distinct attribute names with defined values give exactly one entry per field, in schema order |
| DataMarshall.EntryResults | packages/dynamodb-data-marshaller/src/marshallItem.ts:140-145 | one result per Map entry |
| DataMarshall.MapEntriesAssembles | packages/dynamodb-data-marshaller/src/marshallItem.ts:139-145 | an iterable Map input is assembled key by key from its entries |
| DataMarshall.MapEntriesAllDefined | packages/dynamodb-data-marshaller/src/marshallItem.ts:139-145 | distinct string keys with defined values give one entry per input entry, in order |
| DataMarshall.CollectFoldAllKept | packages/dynamodb-data-marshaller/src/marshallItem.ts:247-256 | when no member is empty, `marshallSet` keeps every member, in order |
| DataUnmarshall.UnmarshallOptions | packages/dynamodb-data-marshaller/src/unmarshallItem.ts:54 | absent options default to `leave`, `throw` and no unwrapping |
| DataUnmarshall.DateOfSeconds | packages/dynamodb-data-marshaller/src/unmarshallItem.ts:76-78 | `new Date(Number(N) * 1000)` is a date, valid or not |
| DataUnmarshall.UnmarshallMissing | packages/dynamodb-data-marshaller/src/unmarshallItem.ts:180 | reading a missing tuple element throws for every node but a Custom one, which is handed `undefined` |
| DataUnmarshall.ListFold | packages/dynamodb-data-marshaller/src/unmarshallItem.ts:140-147 | an unmarshalled list has exactly one element per input element |
| DataUnmarshall.MapFold | packages/dynamodb-data-marshaller/src/unmarshallItem.ts:149-156 | an unmarshalled `Map` has one entry per attribute, under the attribute's own name |
| DataUnmarshall.TupleFold | packages/dynamodb-data-marshaller/src/unmarshallItem.ts:176-184 | an unmarshalled tuple has exactly one element per schema member |
| DataUnmarshall.UnmarshallItem | packages/dynamodb-data-marshaller/src/unmarshallItem.ts:32-47 | the loop of `unmarshallItem` computes exactly the object the fold over the schema describes |
| DataUnmarshall.UnmarshallList | packages/dynamodb-data-marshaller/src/unmarshallItem.ts:140-147 | the loop of `unmarshallList` computes exactly `ListFold` |
| DataUnmarshall.UnmarshallMap | packages/dynamodb-data-marshaller/src/unmarshallItem.ts:149-156 | the loop of `unmarshallMap` computes exactly `MapFold` |
| DataUnmarshall.UnmarshallTuple | packages/dynamodb-data-marshaller/src/unmarshallItem.ts:176-184 | the loop of `unmarshallTuple` computes exactly `TupleFold` over all members |
| DataUnmarshall.UnmarshallNumberSet | packages/dynamodb-data-marshaller/src/unmarshallItem.ts:158-165 | the loop of `unmarshallNumberSet` builds the `Set` of the members' `Number` values |
| DataUnmarshall.UnmarshallStringSet | packages/dynamodb-data-marshaller/src/unmarshallItem.ts:167-174 | the loop of `unmarshallStringSet` builds the `Set` of the member strings |
| DataUnmarshall.FieldResults | packages/dynamodb-data-marshaller/src/unmarshallItem.ts:39-44 | one unmarshalled field per schema entry, under the property name, read from the attribute name |
| DataUnmarshall.ItemFoldAssembles | packages/dynamodb-data-marshaller/src/unmarshallItem.ts:39-44 | `unmarshallItem` is the assembly of its fields' results |
| DataUnmarshall.ItemFoldPresent | packages/dynamodb-data-marshaller/src/unmarshallItem.ts:39-44 | an item unmarshals exactly when every field does; its keys are distinct schema properties; with distinct properties each reads its field's value, or is absent when the attribute is missing |
| DataUnmarshall.ItemFoldAll | packages/dynamodb-data-marshaller/src/unmarshallItem.ts:39-44 | when every attribute is present and unmarshals, the object has exactly the schema's properties, in order, with their values |
| DataUnmarshall.ListResults | packages/dynamodb-data-marshaller/src/unmarshallItem.ts:143 | one member result per list element |
| DataUnmarshall.ListFoldCollects | packages/dynamodb-data-marshaller/src/unmarshallItem.ts:140-147 | a list throws the first member error and otherwise collects every result |
| DataUnmarshall.ListFoldAll | packages/dynamodb-data-marshaller/src/unmarshallItem.ts:140-147 | a list unmarshals exactly when every element does, and holds each element's value at its position |
| DataUnmarshall.MapEntry | packages/dynamodb-data-marshaller/src/unmarshallItem.ts:152 | an entry unmarshals exactly when its value does, and keeps its key |
| DataUnmarshall.MapResults | packages/dynamodb-data-marshaller/src/unmarshallItem.ts:151-153 | one entry result per attribute |
| DataUnmarshall.MapFoldCollects | packages/dynamodb-data-marshaller/src/unmarshallItem.ts:149-156 | a `Map` throws the first entry error and otherwise collects every entry |
| DataUnmarshall.MapFoldAll | packages/dynamodb-data-marshaller/src/unmarshallItem.ts:149-156 | a `Map` unmarshals exactly when every value does, and holds each attribute's name and value at its position |
| DataUnmarshall.TupleResults | packages/dynamodb-data-marshaller/src/unmarshallItem.ts:179-181 | one result per schema member, read at its own index |
| DataUnmarshall.TupleFoldCollects | packages/dynamodb-data-marshaller/src/unmarshallItem.ts:176-184 | a tuple throws the first member error and otherwise collects every result |
| DataUnmarshall.TupleFoldAll | packages/dynamodb-data-marshaller/src/unmarshallItem.ts:176-184 | a tuple unmarshals exactly when every member does, and holds each member's value at its position |
| DataUnmarshall.TupleTooShort | packages/dynamodb-data-marshaller/src/unmarshallItem.ts:179-181 | a list shorter than the tuple schema throws when a missing member is not Custom |
| DataUnmarshall.TupleMissingCustom | packages/dynamodb-data-marshaller/src/unmarshallItem.ts:179-181 | when a short list unmarshals, every missing member is Custom and holds what its `unmarshall` gives for `undefined` |
| RoundTrip.ValueRoundTrip | packages/dynamodb-data-marshaller/src/marshallItem.ts:40-219 | every value that fits its schema node marshals to an attribute, and unmarshalling that attribute gives the value back |
| RoundTrip.ItemRoundTrip | packages/dynamodb-data-marshaller/src/marshallItem.ts:18-31 | an object that fits its schema marshals to an item, and `unmarshallItem` of the item gives the object back |
| RoundTrip.ContainerRoundTrip | packages/dynamodb-data-marshaller/src/marshallItem.ts:110-158 | Document, List, Map and Tuple values that fit round-trip |
| RoundTrip.LeafRoundTrip | packages/dynamodb-data-marshaller/src/marshallItem.ts:50-108 | Any, Binary, Boolean, Custom, Collection, Date, Hash, Null, Number, Set and String values that fit round-trip |
| RoundTrip.ScalarRoundTrip | packages/dynamodb-data-marshaller/src/marshallItem.ts:160-208 | strings, integral numbers, booleans, `null` and binaries round-trip (an empty string or binary through `NULL`), and so does a custom value whose `unmarshall` inverts `marshall` |
| RoundTrip.DateRoundTrip | packages/dynamodb-data-marshaller/src/marshallItem.ts:95-108 | a date on a whole second round-trips through its `N` seconds |
| RoundTrip.ListRoundTrip | packages/dynamodb-data-marshaller/src/marshallItem.ts:125-135 | a list of fitting elements round-trips element by element |
| RoundTrip.MapRoundTrip | packages/dynamodb-data-marshaller/src/marshallItem.ts:137-158 | a `Map` with distinct string keys and fitting values round-trips entry by entry |
| RoundTrip.TupleRoundTrip | packages/dynamodb-data-marshaller/src/marshallItem.ts:210-216 | a tuple of fitting members, as long as its schema, round-trips member by member |
| RoundTrip.DocumentRoundTrip | packages/dynamodb-data-marshaller/src/marshallItem.ts:110-112 | a nested document that fits its members round-trips |
| RoundTrip.SetRoundTrip | packages/dynamodb-data-marshaller/src/marshallItem.ts:168-199 | a set of distinct members of its kind round-trips, an empty one through `NULL` |
| RoundTrip.StringSetRoundTrip | packages/dynamodb-data-marshaller/src/marshallItem.ts:189-193 | a set of distinct non-empty strings marshals to `SS` and reads back as the same `Set` |
| RoundTrip.NumberSetRoundTrip | packages/dynamodb-data-marshaller/src/marshallItem.ts:183-187 | a set of distinct integral numbers marshals to `NS` and reads back as the same `Set` |
| RoundTrip.NumberTextsRead | packages/dynamodb-data-marshaller/src/unmarshallItem.ts:158-165 | `Number` of each marshalled member text gives the member back |
| RoundTrip.BinarySetRoundTrip | packages/dynamodb-data-marshaller/src/marshallItem.ts:169-181 | a `BinarySet` of distinct non-empty values marshals to `BS` and reads back as the same set |
| RoundTrip.AnyRoundTrip | packages/dynamodb-data-marshaller/src/marshallItem.ts:50-58 | an Any node round-trips every value its auto-marshaller options round-trip |
| RoundTrip.HashRoundTrip | packages/dynamodb-data-marshaller/src/marshallItem.ts:114-123 | a Hash node round-trips a plain object its auto-marshaller options round-trip |
| RoundTrip.CollectionRoundTrip | packages/dynamodb-data-marshaller/src/marshallItem.ts:76-93 | a Collection node round-trips an array its auto-marshaller options round-trip |
| MarshallKey.MarshallKey | packages/dynamodb-data-marshaller/src/marshallKey.ts:6-25 | the loop of `marshallKey` computes exactly `KeyFold` |
| MarshallKey.KeyFields | packages/dynamodb-data-marshaller/src/marshallKey.ts:15 | only the schema's key fields, for the table or the named index, are considered |
| MarshallKey.Extend | packages/dynamodb-data-marshaller/src/marshallKey.ts:17-20 | a defined value is stored under its attribute name; undefined is skipped; an error stops the loop |
| MarshallKey.KeyFoldStep | packages/dynamodb-data-marshaller/src/marshallKey.ts:13-22 | a non-key field leaves the key unchanged; a key field extends it |
| MarshallKey.KeyFoldIsItemOfKeys | packages/dynamodb-data-marshaller/src/marshallKey.ts:6-25 | `marshallKey` is `marshallItem` of the schema restricted to its key fields |
| MarshallKey.KeyFoldFields | packages/dynamodb-data-marshaller/src/marshallKey.ts:13-22 | every marshalled attribute is the name of a key field, and so a table key or a key of the named index; with distinct names, each key field holds its marshalled value |
| MarshallKey.NonKeyValuesIgnored | packages/dynamodb-data-marshaller/src/marshallKey.ts:15-17 | values of non-key properties do not affect the key |
| Versioning.HandleVersionAttribute | packages/dynamodb-data-mapper/src/DataMapper.ts:1201-1232 | an undefined version starts at 0; a defined one is incremented through `new AttributePath(name)`, which throws exactly when the name does not parse |
| Versioning.VersionCheck | packages/dynamodb-data-mapper/src/DataMapper.ts:1210-1229 | the version condition holds exactly when the stored version is absent (for an undefined input) or equal to the input's; then the new version is the input's plus one, or 0 |
| Versioning.NextVersionText | packages/dynamodb-data-mapper/src/DataMapper.ts:769-771 | `(Number(N) + 1).toString()` is the stored integer plus one |
| Versioning.PutVersioning | packages/dynamodb-data-mapper/src/DataMapper.ts:757-781 | with `skipVersionCheck` the item and condition are untouched; otherwise the loop over the schema computes exactly `PutFold` |
| Versioning.PutErrSticky | packages/dynamodb-data-mapper/src/DataMapper.ts:758-780 | once a version attribute throws, later fields cannot undo it |
| Versioning.PutFoldStep | packages/dynamodb-data-mapper/src/DataMapper.ts:763-774 | a version field bumps its attribute (or sets it to 0) and nothing else; any other field leaves the item alone |
| Versioning.PutBumpsVersions | packages/dynamodb-data-mapper/src/DataMapper.ts:757-781 | with distinct version names, every version attribute of the put item is bumped and every other attribute is left as marshalled |
| Versioning.PutConditionMeaning | packages/dynamodb-data-mapper/src/DataMapper.ts:776-778 | the put condition holds exactly when the caller's condition holds and every version attribute is stored as the record says |
| Versioning.FieldAction | packages/dynamodb-data-mapper/src/DataMapper.ts:930-951 | a key field produces no action; a version field sets the next version, and throws exactly when `handleVersionAttribute` does; an undefined member is removed under `remove` and skipped otherwise |
| Versioning.PlanUpdate | packages/dynamodb-data-mapper/src/DataMapper.ts:926-952 | the loop of `update` computes exactly `UpdateFold` |
| Versioning.UpdateErrSticky | packages/dynamodb-data-mapper/src/DataMapper.ts:926-952 | once a field throws, later fields cannot undo it |
| Versioning.UpdateFoldStep | packages/dynamodb-data-mapper/src/DataMapper.ts:926-952 | each field appends its action, if any, and a key field records its value in the item key |
| Versioning.ActionResults | packages/dynamodb-data-mapper/src/DataMapper.ts:926-952 | one action result per schema field |
| Versioning.UpdateFoldGathers | packages/dynamodb-data-mapper/src/DataMapper.ts:926-952 | the update succeeds exactly when every field's action does, and its actions are the defined ones, in schema order |
| Versioning.UpdateActionsDefined | packages/dynamodb-data-mapper/src/DataMapper.ts:926-952 | the update plan exists exactly when no field throws |
| Versioning.UpdateActionsComplete | packages/dynamodb-data-mapper/src/DataMapper.ts:926-952 | every defined field action is in the plan |
| Versioning.UpdateActionsSound | packages/dynamodb-data-mapper/src/DataMapper.ts:926-952 | every action in the plan comes from some field |
| Versioning.UpdateKeyFields | packages/dynamodb-data-mapper/src/DataMapper.ts:930-931 | the item key holds exactly the table key properties |
| Versioning.DeleteFold | packages/dynamodb-data-mapper/src/DataMapper.ts:477-497 | no condition comes out only when none went in |
| Versioning.DeleteVersioning | packages/dynamodb-data-mapper/src/DataMapper.ts:477-497 | with `skipVersionCheck` the condition is untouched; otherwise the loop computes exactly `DeleteFold` |
| Versioning.DeleteErrSticky | packages/dynamodb-data-mapper/src/DataMapper.ts:478-496 | once a version attribute throws, later fields cannot undo it |
| Versioning.VersionsMatchStep | packages/dynamodb-data-mapper/src/DataMapper.ts:482-485 | only version fields with a defined input add a check |
| Versioning.DeleteFoldStep | packages/dynamodb-data-mapper/src/DataMapper.ts:482-495 | a version field with a defined input conjoins its condition; any other field adds nothing |
| Versioning.DeleteConditionMeaning | packages/dynamodb-data-mapper/src/DataMapper.ts:477-497 | the delete condition holds exactly when the caller's condition holds and every defined version attribute is stored as the record says |
| StartKey.AsWrittenRejectsUnknown | packages/dynamodb-data-mapper/src/marshallStartKey.ts:14-16 | as written, a start key with any property the schema does not know throws while destructuring `attributeName`, before the `if (propSchema)` guard is reached |
| StartKey.AsWrittenEmptySchemaExample | packages/dynamodb-data-mapper/src/marshallStartKey.ts:14-16 | as written, `{foo: 1}` against an empty schema throws "Cannot destructure property 'attributeName' of 'propSchema' as it is undefined." |
| StartKey.MarshallStartKey | packages/dynamodb-data-mapper/src/marshallStartKey.ts:11-22 | the loop over the start key's properties computes exactly `StartKeyFold`, which skips properties the schema does not know |
| StartKey.StartKeyErrSticky | packages/dynamodb-data-mapper/src/marshallStartKey.ts:13-19 | once a property's marshalling throws, later properties cannot undo it |
| StartKey.CorrectedAgreesWhenAllKnown | packages/dynamodb-data-mapper/src/marshallStartKey.ts:11-22 | when the schema knows every property, the corrected fold and the code as written agree |
| StartKey.KnownProperties | packages/dynamodb-data-mapper/src/marshallStartKey.ts:16 | only properties the schema knows, taken from the start key |
| StartKey.CorrectedIgnoresUnknown | packages/dynamodb-data-mapper/src/marshallStartKey.ts:16 | the corrected fold is the code as written run on the known properties alone |
| StartKey.StartKeyDefined | packages/dynamodb-data-mapper/src/marshallStartKey.ts:17 | the start key marshals exactly when every known property's value does |
| StartKey.StartKeyNames | packages/dynamodb-data-mapper/src/marshallStartKey.ts:15-17 | the marshalled key has distinct names, exactly the attribute names of the known properties |
| StartKey.NamedByStep | packages/dynamodb-data-mapper/src/marshallStartKey.ts:15-17 | one more known property adds its attribute name |
| StartKey.StartKeyValues | packages/dynamodb-data-mapper/src/marshallStartKey.ts:17 | each known property that is the last to write its attribute name stores its marshalled value there |
| ProjectionExpression.EntriesSpec | packages/dynamodb-expressions/src/ProjectionExpression.ts:19-22 | one placeholder entry per projected item |
| ProjectionExpression.AddItem | packages/dynamodb-expressions/src/ProjectionExpression.ts:21 | `attributes.addName(projected)` returns the placeholder and updates the name table as `AddItemSpec` says, keeping the substitution invariant |
| ProjectionExpression.SerializeProjection | packages/dynamodb-expressions/src/ProjectionExpression.ts:15-25 | the loop returns the entries joined by `, ` and leaves the name table as the specification says, or throws the first path error; the substitution invariant is kept |
| ProjectionExpression.PrefixError | packages/dynamodb-expressions/src/ProjectionExpression.ts:20-22 | once a projected item throws, later items cannot undo it |
| ProjectionExpression.EmptyProjection | packages/dynamodb-expressions/src/ProjectionExpression.ts:24 | an empty projection is the empty string and registers no name |
| ProjectionExpression.RepeatedPath | packages/dynamodb-expressions/src/ProjectionExpression.ts:21 | projecting the same path twice reuses the same placeholder |
| ProjectionExpression.StringLikePath | packages/dynamodb-expressions/src/ProjectionExpression.ts:21 | a string item is parsed as a path and then registered like that path |
| ProjectionExpression.ExampleTwoProperties | packages/dynamodb-data-mapper/src/DataMapper.spec.ts:2554-2560 | projecting `fizz` and `pop` on fresh attributes gives `#attr0, #attr1` |
| MapperKeys.KeyNames | packages/dynamodb-data-mapper/src/DataMapper.ts:1191-1196 | the key names never outnumber the properties |
| MapperKeys.GetKeyProperties | packages/dynamodb-data-mapper/src/DataMapper.ts:1189-1199 | the loop of `getKeyProperties` computes exactly the attribute names of the table key fields, over the sorted property names |
| MapperKeys.KeyNamesMembers | packages/dynamodb-data-mapper/src/DataMapper.ts:1191-1196 | a name is collected exactly when some property is a table key field with that attribute name |
| MapperKeys.KeyNamesSameLookups | packages/dynamodb-data-mapper/src/DataMapper.ts:1191-1196 | the result depends only on what each property name looks up |
| MapperKeys.KeyPropertiesMembers | packages/dynamodb-data-mapper/src/DataMapper.ts:1189-1199 | `getKeyProperties` lists exactly the attribute names of the table key fields |
| MapperKeys.KeyPropertiesIgnoreDeclarationOrder | packages/dynamodb-data-mapper/src/DataMapper.ts:1191 | because the property names are sorted first, the order in which the schema declares its properties does not matter |
| MapperKeys.ValueText | packages/dynamodb-data-mapper/src/DataMapper.ts:1311 | `value.B ?? value.N ?? value.S` is the number text, the string, or "undefined" |
| MapperKeys.IdentifierParts | packages/dynamodb-data-mapper/src/DataMapper.ts:1309-1312 | one `key=value` part per key property |
| MapperKeys.MapperItemIdentifier | packages/dynamodb-data-mapper/src/DataMapper.ts:1304-1315 | the loop of `itemIdentifier` computes exactly the parts joined by `:`, or the TypeError of a missing key attribute |
| MapperKeys.IdentifierErrSticky | packages/dynamodb-data-mapper/src/DataMapper.ts:1309-1312 | once a key attribute is missing, later ones cannot undo it |
| MapperKeys.IdentifierPartsMeaning | packages/dynamodb-data-mapper/src/DataMapper.ts:1309-1312 | the identifier exists exactly when every key property is in the item, and its parts are `key=value` in key order |
| MapperKeys.IdentifierPartsDefined | packages/dynamodb-data-mapper/src/DataMapper.ts:1310-1311 | reading `value.B` throws exactly when a key property is missing from the item |
| MapperKeys.IdentifierPartsValues | packages/dynamodb-data-mapper/src/DataMapper.ts:1311 | each part is its key property, `=`, and the value's text |
| MapperKeys.IdentifierDependsOnKeysOnly | packages/dynamodb-data-mapper/src/DataMapper.ts:1304-1315 | items that agree on their key properties have the same identifier |
| MapperKeys.PartsSameLookups | packages/dynamodb-data-mapper/src/DataMapper.ts:1309-1312 | the parts depend only on the key properties' values |
| MapperKeys.Elements | packages/dynamodb-data-mapper/src/DataMapper.ts:1318-1321 | one key schema element per key, with its name and type |
| MapperKeys.OfType | packages/dynamodb-data-mapper/src/DataMapper.ts:1323-1333 | the elements of one key type |
| MapperKeys.OfTypeMultiset | packages/dynamodb-data-mapper/src/DataMapper.ts:1323-1333 | the HASH and the RANGE elements together are all the elements |
| MapperKeys.OfTypeOfUniform | packages/dynamodb-data-mapper/src/DataMapper.ts:1323-1333 | a list of one key type has only elements of that type |
| MapperKeys.OfTypeAppend | packages/dynamodb-data-mapper/src/DataMapper.ts:1323-1333 | picking one key type distributes over concatenation |
| MapperKeys.KeyTypesToElementListSorted | packages/dynamodb-data-mapper/src/DataMapper.ts:1317-1336 | `keyTypesToElementList` is a permutation of the keys with the HASH elements first, keeping the relative order of the HASH elements and of the RANGE elements, as a stable sort does |
| MapperKeys.HashFirstUnique | packages/dynamodb-data-mapper/src/DataMapper.ts:1323-1333 | any HASH-first list with the same HASH and RANGE subsequences is exactly the result, so the stable sort's output is determined |
| MapperKeys.SplitAt | packages/dynamodb-data-mapper/src/DataMapper.ts:1323-1333 | a HASH block followed by a RANGE block splits into its HASH and RANGE elements |
| MapperKeys.TrailingRanges | packages/dynamodb-data-mapper/src/DataMapper.ts:1323-1333 | in a HASH-first list, everything after the HASH block is RANGE |
| MapperKeys.UniformSplit | packages/dynamodb-data-mapper/src/DataMapper.ts:1323-1333 | a HASH block followed by a RANGE block is recovered by picking each type |
| MapperKeys.LeadingHashes | packages/dynamodb-data-mapper/src/DataMapper.ts:1323-1333 | the length of the leading HASH block |
| TableDefinition.IndexProjection | packages/dynamodb-data-mapper/src/DataMapper.ts:1276-1292 | `'all'` projects ALL, any other name KEYS_ONLY, and a list of properties is INCLUDE with each property under its attribute name |
| TableDefinition.SchemaNames | packages/dynamodb-data-mapper/src/DataMapper.ts:1288-1290 | each projected property's attribute name, in order |
| TableDefinition.IncludedNamesRenamed | packages/dynamodb-data-mapper/src/DataMapper.ts:1288-1290 | a property the schema does not know keeps its name, and one with an `attributeName` takes it |
| TableDefinition.IsNumberTypeOf | packages/dynamodb-data-mapper/src/DataMapper.ts:1346-1347 | the model's number test is `typeof … === 'number'` |
| TableDefinition.ProvisionedThroughput | packages/dynamodb-data-mapper/src/DataMapper.ts:1338-1358 | throughput is given exactly when both capacities are numbers, and then holds both |
| TableDefinition.IndexEntryOf | packages/dynamodb-data-mapper/src/DataMapper.ts:1246-1267 | an index with no options throws "No options provided for … index"; otherwise a `local` index becomes a local index and any other type a global one |
| TableDefinition.Place | packages/dynamodb-data-mapper/src/DataMapper.ts:1257-1267 | a local index is appended to the local list and a global one to the global list |
| TableDefinition.KeyedIndexes | packages/dynamodb-data-mapper/src/DataMapper.ts:1245-1246 | every index with its key schema built by `keyTypesToElementList`, in order |
| TableDefinition.Then | packages/dynamodb-data-mapper/src/DataMapper.ts:1245-1268 | the first thrown error stops the loop |
| TableDefinition.Definitions | packages/dynamodb-data-mapper/src/DataMapper.ts:1270-1273 | each list is given exactly when it is non-empty |
| TableDefinition.DefineIndex | packages/dynamodb-data-mapper/src/DataMapper.ts:1246-1267 | one pass of the loop computes exactly `IndexEntryOf` on the index's sorted key schema |
| TableDefinition.BuildIndexDefinitions | packages/dynamodb-data-mapper/src/DataMapper.ts:1234-1274 | the loop of `indexDefinitions` computes exactly `IndexDefinitionsSpec` |
| TableDefinition.KeyedIndexAt | packages/dynamodb-data-mapper/src/DataMapper.ts:1245-1246 | the i-th keyed index is the i-th index with its sorted key schema |
| TableDefinition.FoldOkAt | packages/dynamodb-data-mapper/src/DataMapper.ts:1257-1267 | a successful pass appends its index to the list its type selects |
| TableDefinition.SpecOfFold | packages/dynamodb-data-mapper/src/DataMapper.ts:1270-1273 | a loop that completes returns the definitions of its lists |
| TableDefinition.SpecOfFoldErr | packages/dynamodb-data-mapper/src/DataMapper.ts:1248-1250 | a loop that throws throws the same error |
| TableDefinition.FoldErrAt | packages/dynamodb-data-mapper/src/DataMapper.ts:1248-1250 | an index without options makes the whole loop throw its error |
| TableDefinition.IndexErrSticky | packages/dynamodb-data-mapper/src/DataMapper.ts:1245-1268 | once the loop throws, later indexes cannot undo it |
| TableDefinition.IndexFoldError | packages/dynamodb-data-mapper/src/DataMapper.ts:1245-1268 | the loop throws exactly when some index has no options, and then with the error of the first such index |
| TableDefinition.FoldOkStep | packages/dynamodb-data-mapper/src/DataMapper.ts:1245-1268 | a completed loop is the loop over the earlier indexes followed by placing the last one |
| TableDefinition.PlaceHolds | packages/dynamodb-data-mapper/src/DataMapper.ts:1257-1267 | placing an index keeps everything placed before and holds the new index |
| TableDefinition.PlacedOfHolds | packages/dynamodb-data-mapper/src/DataMapper.ts:1252-1266 | an index held in a list is placed with its key schema, its projection and, for a global index, its throughput |
| TableDefinition.IndexFoldPlacement | packages/dynamodb-data-mapper/src/DataMapper.ts:1245-1268 | every index with options is placed in the list its type selects |
| TableDefinition.IndexPlaced | packages/dynamodb-data-mapper/src/DataMapper.ts:1245-1268 | a single index with options ends up in the result |
| TableDefinition.IndexFoldOrigin | packages/dynamodb-data-mapper/src/DataMapper.ts:1245-1268 | every local (global) index in the result comes from an index declared local (not local) |
| TableDefinition.IndexDefinitionsError | packages/dynamodb-data-mapper/src/DataMapper.ts:1234-1274 | `indexDefinitions` throws exactly when some index has no options, with the message naming the first such index |
| TableDefinition.IndexDefinitionsPlacement | packages/dynamodb-data-mapper/src/DataMapper.ts:1234-1274 | every index appears, with its sorted key schema and its projection, among the local indexes if declared `local` and otherwise among the global indexes with its throughput |
| TableDefinition.IndexFoldPresence | packages/dynamodb-data-mapper/src/DataMapper.ts:1257-1267 | a list is non-empty exactly when some index of its kind was placed |
| TableDefinition.IndexDefinitionsPresence | packages/dynamodb-data-mapper/src/DataMapper.ts:1270-1273 | `LocalSecondaryIndexes` is given exactly when some index is declared `local`, and `GlobalSecondaryIndexes` exactly when some index is declared otherwise |
| MapperQuery.PropertyCondition | packages/dynamodb-data-mapper/src/QueryPaginator.ts:107-119 | a predicate value becomes that predicate on the property, any other value an `Equals` comparison with it |
| MapperQuery.PropertyConditions | packages/dynamodb-data-mapper/src/QueryPaginator.ts:105-120 | one condition per property of the record |
| MapperQuery.NormalizeSpec | packages/dynamodb-data-mapper/src/QueryPaginator.ts:98-127 | a condition expression is kept as it is; a record of other than one property becomes an `And` with one condition per property |
| MapperQuery.NormalizeKeyCondition | packages/dynamodb-data-mapper/src/QueryPaginator.ts:98-127 | the loop of `normalizeKeyCondition` computes exactly `NormalizeSpec` |
| MapperQuery.PropertyConditionsAt | packages/dynamodb-data-mapper/src/QueryPaginator.ts:106-120 | the i-th condition is the one built from the i-th property |
| MapperQuery.NormalizeShape | packages/dynamodb-data-mapper/src/QueryPaginator.ts:122-126 | a single-property record becomes its one condition, any other record the `And` of all of them, in order |
| MapperQuery.NormalizeHolds | packages/dynamodb-data-mapper/src/QueryPaginator.ts:98-127 | the normalised condition holds on an item exactly when every property's condition holds on it |
| MapperQuery.PlainRecordHolds | packages/dynamodb-data-mapper/src/QueryPaginator.ts:113-118 | a record of plain values matches exactly the items holding every one of those values |
| MapperQuery.RequestFields | packages/dynamodb-data-mapper/src/QueryPaginator.ts:48-88 | the table name carries the prefix, `Limit` is the page size, `ConsistentRead` is set (to true) only for strong reads, filter and projection expressions appear exactly when given, and names and values are sent exactly when some were recorded |
| MapperQuery.QueryRequestSpec | packages/dynamodb-data-mapper/src/QueryPaginator.ts:28-95 | the request fails exactly when the start key cannot be marshalled by the corrected `StartKeyFold` (see the marshallStartKey.ts:14-16 finding: properties the schema does not describe are skipped, where the code as written throws a TypeError); otherwise it is `RequestFields` with `ExclusiveStartKey` given exactly when a start key is |
| MapperQuery.QueryRequest | packages/dynamodb-data-mapper/src/QueryPaginator.ts:28-95 | the constructor's statements compute exactly `QueryRequestSpec`, marshalling the start key with the corrected `MarshallStartKey` |
| MapperQuery.BuildFields | packages/dynamodb-data-mapper/src/QueryPaginator.ts:48-88 | the statements before the start key compute exactly `RequestFields` |
| MapperQuery.DecodeItems | packages/dynamodb-data-mapper/src/Paginator.ts:88-90 | one decoded item per item of the page |
| MapperQuery.DecodeKey | packages/dynamodb-data-mapper/src/Paginator.ts:83-85 | no key decodes to no key, and a key decodes to its unmarshalled value or fails with it |
| MapperQuery.Deliver | packages/dynamodb-data-mapper/src/Paginator.ts:80-97 | an error is passed on and a finished paginator finishes with the last key kept; a page yields one decoded item per item and updates the last key |
| MapperQuery.Paginator.constructor | packages/dynamodb-data-mapper/src/Paginator.ts:13-18 | a paginator starts without a last key over a fresh inner paginator |
| MapperQuery.Paginator.Next | packages/dynamodb-data-mapper/src/Paginator.ts:30-33 | after an error every call fails again with it; otherwise the inner paginator advances one step and its result is delivered as `Deliver` says |
| MapperQuery.Paginator.Return | packages/dynamodb-data-mapper/src/Paginator.ts:38-46 | the paginator and the inner one are interrupted and answer done, with nothing else changed |
| MapperQuery.Paginator.Count | packages/dynamodb-data-mapper/src/Paginator.ts:59-61 | the number of items of the pages received so far |
| MapperQuery.Paginator.ScannedCount | packages/dynamodb-data-mapper/src/Paginator.ts:76-78 | the number of items scanned by the pages received so far |
| MapperQuery.Paginator.ConsumedCapacity | packages/dynamodb-data-mapper/src/Paginator.ts:52-54 | the merge of the capacities the pages reported |
| MapperQuery.Paginator.LastEvaluatedKey | packages/dynamodb-data-mapper/src/Paginator.ts:67-69 | the last page's key, decoded with the item schema |
| MapperQuery.DeliverKeepsKey | packages/dynamodb-data-mapper/src/Paginator.ts:81-86 | delivering a step keeps the stored key equal to the decoded key of the last page received |
| MapperQuery.DeliverPage | packages/dynamodb-data-mapper/src/Paginator.ts:81-92 | a page whose items and key all decode yields exactly the decoded items and key |
| MapperQuery.DecodeItemsMeaning | packages/dynamodb-data-mapper/src/Paginator.ts:88-90 | the page decodes exactly when every item does, and then item by item |
| MapperQuery.DecodeAgreeing | packages/dynamodb-data-mapper/src/Paginator.ts:88-90 | items that decode one by one to given values decode together to those values |
| MapperQuery.DecodeMarshalledItems | packages/dynamodb-data-mapper/src/Paginator.ts:88-90 | items marshalled from values that fit the schema decode back to those values |
| MapperBatch.RenameAll | packages/dynamodb-data-mapper/src/DataMapper.ts:1178-1180 | every projected name is turned into a path under the projection schema, or the first name that does not parse fails the conversion |
| MapperBatch.ConvertSpec | packages/dynamodb-data-mapper/src/DataMapper.ts:1165-1187 | `ConsistentRead` is set (to true) exactly for strong reads; the projection expression and its names are given exactly when a projection is |
| MapperBatch.ConvertBatchGetOptions | packages/dynamodb-data-mapper/src/DataMapper.ts:1165-1187 | the statements of `convertBatchGetOptions` compute exactly `ConvertSpec` |
| MapperBatch.RenameErrSticky | packages/dynamodb-data-mapper/src/DataMapper.ts:1178-1180 | once a name fails to parse, later names do not change the error |
| MapperBatch.PathsNeverFail | packages/dynamodb-data-mapper/src/DataMapper.ts:1177-1182 | serialising names that are already paths cannot fail |
| MapperBatch.RenameAllError | packages/dynamodb-data-mapper/src/DataMapper.ts:1178-1180 | the conversion fails exactly when some projected string does not parse as a path, with the error of the first such string |
| MapperBatch.RenameAllPaths | packages/dynamodb-data-mapper/src/DataMapper.ts:1178-1180 | each projected path is renamed through the projection schema, a string after being parsed |
| MapperBatch.ConvertError | packages/dynamodb-data-mapper/src/DataMapper.ts:1165-1187 | the options fail to convert exactly when a projected string does not parse |
| MapperBatch.ProjectionSchemaWins | packages/dynamodb-data-mapper/src/DataMapper.ts:1179 | with a `projectionSchema` the item schema plays no part |
| MapperBatch.ConvertExpression | packages/dynamodb-data-mapper/src/DataMapper.ts:1175-1184 | the projection expression is the comma-separated list of the serialised renamed paths, one per projected name |
| MapperBatch.WithTable | packages/dynamodb-data-mapper/src/DataMapper.ts:1103-1108 | a table met for the first time gets its key properties and no item schemata; a known table and every other table are kept |
| MapperBatch.Record | packages/dynamodb-data-mapper/src/DataMapper.ts:1110-1115 | the item's schema is recorded under its identifier in its table, and nothing else changes |
| MapperBatch.Lookup | packages/dynamodb-data-mapper/src/DataMapper.ts:189-191 | a returned item resolves exactly when its table is known, its identifier can be computed and a schema is recorded under it, and then to that schema |
| MapperBatch.BatchState.constructor | packages/dynamodb-data-mapper/src/BatchState.ts:3-15 | the state starts with no tables |
| MapperBatch.PerTableOptions.constructor | packages/dynamodb-data-mapper/src/DataMapper.ts:177 | the converted options start empty |
| MapperBatch.WithTableKeepsLookups | packages/dynamodb-data-mapper/src/DataMapper.ts:1103-1108 | adding a table keeps every earlier item resolving as it did |
| MapperBatch.RecordResolves | packages/dynamodb-data-mapper/src/DataMapper.ts:1110-1117 | recording an item and yielding it keeps every yielded item resolving to its schema unless a later item with the same identifier replaced it |
| MapperBatch.GetInputOf | packages/dynamodb-data-mapper/src/DataMapper.ts:1092-1111 | the table name carries the prefix, options are converted exactly for tables the options name, and the key is marshalled with the item's schema |
| MapperBatch.GetInputs | packages/dynamodb-data-mapper/src/DataMapper.ts:1091 | one input per item, in order |
| MapperBatch.MapGetItem | packages/dynamodb-data-mapper/src/DataMapper.ts:1092-1117 | one pass of `mapGetBatch`'s loop updates the state and the converted options and yields exactly as `GetStep` says |
| MapperBatch.MapGetBatch | packages/dynamodb-data-mapper/src/DataMapper.ts:1085-1119 | the loop of `mapGetBatch` computes exactly `GetFold` over all items |
| MapperBatch.GetStops | packages/dynamodb-data-mapper/src/DataMapper.ts:1091-1118 | once the generator throws, later items change nothing |
| MapperBatch.GetSchemas | packages/dynamodb-data-mapper/src/DataMapper.ts:1094 | each item's schema, in order |
| MapperBatch.GetStepFacts | packages/dynamodb-data-mapper/src/DataMapper.ts:1092-1117 | a pass yields the marshalled key or nothing, keeps every known table's key properties and every converted table, and converts a table's options the first time it is met with options |
| MapperBatch.GetStepYields | packages/dynamodb-data-mapper/src/DataMapper.ts:1111-1117 | a pass that does not throw yields the table name and the marshalled key, and one that throws yields nothing |
| MapperBatch.GetStepResolves | packages/dynamodb-data-mapper/src/DataMapper.ts:1092-1117 | a pass keeps every yielded item resolving to the schema it was submitted with |
| MapperBatch.GetFoldYields | packages/dynamodb-data-mapper/src/DataMapper.ts:1085-1119 | the generator yields the marshalled keys of a prefix of the items, all of them exactly when it does not throw |
| MapperBatch.GetFoldLength | packages/dynamodb-data-mapper/src/DataMapper.ts:1091-1118 | at most one entry per item, and one per item exactly when nothing is thrown |
| MapperBatch.GetYielded | packages/dynamodb-data-mapper/src/DataMapper.ts:1111-1117 | the i-th entry yielded is the i-th item's table and marshalled key |
| MapperBatch.GetTurnYields | packages/dynamodb-data-mapper/src/DataMapper.ts:1091-1118 | each turn yields its item's key after those of the earlier items, or nothing once the generator has thrown |
| MapperBatch.GetFoldGrows | packages/dynamodb-data-mapper/src/DataMapper.ts:1096-1108 | tables and converted options are only added, never changed |
| MapperBatch.GetFoldResolves | packages/dynamodb-data-mapper/src/DataMapper.ts:1085-1119 | every key yielded resolves through the state to the schema its item was submitted with, unless a later item with the same identifier replaced it |
| MapperBatch.GetFoldConvertedTables | packages/dynamodb-data-mapper/src/DataMapper.ts:1096-1101 | only tables some item has options for get converted options |
| MapperBatch.ConvertedOnceStep | packages/dynamodb-data-mapper/src/DataMapper.ts:1096-1101 | a pass keeps every table with options converted, from its first item with options |
| MapperBatch.GetFoldConvertsOnce | packages/dynamodb-data-mapper/src/DataMapper.ts:1096-1101 | every table with options is converted once, by the first of its items met, and never again |
| MapperBatch.BatchGetResult | packages/dynamodb-data-mapper/src/DataMapper.ts:188-193 | an item whose schema cannot be found fails with that error; otherwise it is unmarshalled with the recorded schema |
| MapperBatch.ReturnedItemResolves | packages/dynamodb-data-mapper/src/DataMapper.ts:188-193 | an item returned for a yielded key resolves as long as it agrees with the key on the key properties, and unmarshalls with the schema that key was submitted with unless a later one replaced it |
| MapperBatch.RequestAttributes | packages/dynamodb-data-mapper/src/DataMapper.ts:255-257 | a request is the put or delete of its attributes |
| MapperBatch.RequestOf | packages/dynamodb-data-mapper/src/DataMapper.ts:1142-1145 | a put makes a `PutRequest` and a delete a `DeleteRequest`, around the same attributes |
| MapperBatch.WriteInputOf | packages/dynamodb-data-mapper/src/DataMapper.ts:1125-1141 | the table name carries the prefix; a delete marshalls the key and a put the whole item |
| MapperBatch.WriteInputs | packages/dynamodb-data-mapper/src/DataMapper.ts:1125 | one input per item, in order |
| MapperBatch.MapWriteItem | packages/dynamodb-data-mapper/src/DataMapper.ts:1126-1151 | one pass of `mapWriteBatch`'s loop updates the state and yields exactly as `WriteStep` says |
| MapperBatch.MapWriteBatch | packages/dynamodb-data-mapper/src/DataMapper.ts:1121-1153 | the loop of `mapWriteBatch` computes exactly `WriteFold` over all items |
| MapperBatch.WriteStops | packages/dynamodb-data-mapper/src/DataMapper.ts:1125-1152 | once the generator throws, later items change nothing |
| MapperBatch.WrittenEntries | packages/dynamodb-data-mapper/src/DataMapper.ts:255-257 | each request's table and attributes, in order |
| MapperBatch.WriteSchemas | packages/dynamodb-data-mapper/src/DataMapper.ts:1128 | each item's schema, in order |
| MapperBatch.WriteStepFacts | packages/dynamodb-data-mapper/src/DataMapper.ts:1126-1151 | a pass yields the request built from the marshalled attributes or nothing, and keeps every known table's key properties |
| MapperBatch.WriteStepYields | packages/dynamodb-data-mapper/src/DataMapper.ts:1138-1151 | a pass that does not throw yields the table name and the request, and one that throws yields nothing |
| MapperBatch.RequestOfFacts | packages/dynamodb-data-mapper/src/DataMapper.ts:1142-1145 | a request gives back the attributes it was built from and is a put exactly for a put |
| MapperBatch.WriteStepResolves | packages/dynamodb-data-mapper/src/DataMapper.ts:1126-1151 | a pass keeps every yielded request resolving to the schema it was submitted with |
| MapperBatch.WriteFoldYields | packages/dynamodb-data-mapper/src/DataMapper.ts:1121-1153 | the generator yields one request per item of a prefix of the items, all of them exactly when it does not throw, each of the item's kind around its marshalled attributes |
| MapperBatch.WriteFoldLength | packages/dynamodb-data-mapper/src/DataMapper.ts:1125-1152 | at most one request per item, and one per item exactly when nothing is thrown |
| MapperBatch.WriteYielded | packages/dynamodb-data-mapper/src/DataMapper.ts:1142-1151 | the i-th request yielded is built from the i-th item |
| MapperBatch.WriteTurnYields | packages/dynamodb-data-mapper/src/DataMapper.ts:1125-1152 | each turn yields its item's request after those of the earlier items, or nothing once the generator has thrown |
| MapperBatch.WriteFoldGrows | packages/dynamodb-data-mapper/src/DataMapper.ts:1130-1135 | tables are only added, and their key properties never change |
| MapperBatch.WriteFoldResolves | packages/dynamodb-data-mapper/src/DataMapper.ts:1121-1153 | every request yielded resolves through the state to the schema its item was submitted with, unless a later item with the same identifier replaced it |
| MapperBatch.WriteFoldNext | packages/dynamodb-data-mapper/src/DataMapper.ts:1125-1152 | a turn after no error is one pass of the loop |
| MapperBatch.WriteFoldStops | packages/dynamodb-data-mapper/src/DataMapper.ts:1125-1152 | a turn after an error changes nothing |
| MapperBatch.BatchWriteResult | packages/dynamodb-data-mapper/src/DataMapper.ts:253-265 | a written request comes back as a put exactly when it was a put, and only when its attributes resolve to a recorded schema |
| MapperBatch.BatchPutRoundTrip | packages/dynamodb-data-mapper/src/DataMapper.ts:209-227 | a put item that fits its schema comes back from `batchPut` as the same properties, unless a later item with the same table and key replaced its schema |

## Left out

- AttributePath.ParsePathSpec: a list index is read as an exact natural number; `Number.parseInt` in `parseListIndex` loses precision (or gives `Infinity`) on very long digit strings, which is not modelled.
- Values.NumberOf: N values and `Number(...)` are modelled on integers only (signed digit strings); decimals, exponents, whitespace and hexadecimal literals are left out, so a decimal text is `NaN` here.
- Versioning.NextVersionText: a version stored as the decimal "1.5" becomes "NaN" here, where `Number(N) + 1` gives "2.5"; the model covers integral versions only.
- DataUnmarshall.DateOfSeconds: dates are whole epoch seconds; a fractional N value for a Date or Number field is not modelled.
- DataMarshall.MarshallDateSeconds: `Date` values are integer epoch milliseconds (`Math.floor` of the division by 1000 is Dafny's `/`, which floors for a positive divisor), and a number of seconds is an integer; fractional seconds are left out.
- ConsumedCapacity.MergeCapacities: capacity units are `real` numbers, added without floating-point rounding.
- MapperKeys.GetKeyProperties: `.sort()` is modelled by ordering on Dafny `char`, which agrees with JavaScript's UTF-16 code-unit order only below U+10000.
- ItemIdentifier.SerializeKeyTypeAttributes: the same `char` ordering stands in for `.sort()` on attribute names.
- Values.Keys: `Object.keys` is modelled as insertion order; JavaScript lists integer-like keys first, in numeric order, which is not modelled.
- Values.Get: objects are association lists looked up by own property; names inherited from `Object.prototype` are not modelled outside the two findings below.
- DataUnmarshall.UnmarshallItem: the `attributeName in input` test of unmarshallItem.ts:41 is modelled as an own-property lookup, so inherited names such as `toString` are not seen.
- TableDefinition.IndexEntryOf: `options[IndexName]` is a lookup in a map of per-index options; an index named like an `Object.prototype` member is not modelled.
- MapperBatch.GetStep: the `tableName in state` and `unprefixed in options` tests of mapGetBatch and mapWriteBatch are own-property lookups here; a table named like an `Object.prototype` member is not modelled.
- DataUnmarshall.UnmarshallOptions: the `valueConstructor` applied to Document values and to items (unmarshallItem.ts:37) is host object construction; the model returns plain objects.
- DataMarshall.Prop: reading a named property of an array or a string gives `undefined` here; their `length` and index properties are not modelled.
- DataMarshall.At: an array's named (non-index) properties are not modelled, so a tuple member is read from an array's elements only.
- ItemIterators.ItemIterator: the class is built over the scan and query paginators; the parallel scan iterator, which wraps `ParallelScanPaginator` the same way, is not composed, and its paginator is modelled on its own.
- ItemIterators.ItemIterator.constructor: the requires `Finite(backend)` is an assumption that the table returns finitely many pages with a `LastEvaluatedKey`; the source itself loops for ever on an endless run of empty pages that carry a key.
- Pagination.AdvanceProgresses: proved under the same `Finite(backend)` assumption.
- ParallelScan.ParallelScanPaginator.Count: the counts and consumed capacity advance when a page is taken from a segment, not when the segment's response arrives.
- ParallelScan.ParallelScanPaginator.Next: `Promise.race` over the pending segments is modelled as an arbitrary choice of a pending segment; which segment answers first depends on response timing, which is not modelled.
- Promise sequencing: the `lastResolved` chains of the paginators and iterators are left out; `next()` is a sequential method, and an error it once returns is kept as a sticky failure.
- The DynamoDB client and commands are foreign: the backend is a pure function from request to response page, with no retries, throttling or network errors other than an `Err` it may return.
- The batch engine (`BatchGet`/`BatchWrite`, with per-table backoff) is not part of this model; only the generators that feed it and the lookups of what it returns are modelled.
- Table creation, deletion and single-item network calls in `DataMapper` are network I/O; `attributeDefinitionList`, used only by `createTable`, is left out with them.
- `getTableName` and `getSchema` (protocols.ts) are not part of this model: each item is given with its table name and schema.
- Custom `marshall`/`unmarshall` callbacks are pure functions given with the schema, and a `defaultProvider` is modelled as the value it returns.
- Host conversions (`ArrayBuffer.isView`, `Buffer.from`, `DataView`, `toByteArray`) are host typing: bytes are `seq<bv8>` throughout.
- ObjectSet.ts is not part of this model: a `BinarySet` is assumed to be recognised as a set.
- Condition expressions are modelled by their truth on an item; their serialisation (`marshallConditionExpression`) is a parameter of the query request builder.
- The update expression object of `update` is modelled as the list of its set and remove actions; its text is not built.
- TableDefinition.DefineIndex: the per-index options are a map and the key schemas of the indexes are computed before the loop; `keyTypesToElementList` is pure, so the order of evaluation does not change the result.
- The mapper's batch generators are eager: the items are a finite sequence consumed in order, rather than an asynchronous iterable.
- The thin iterator wrappers, `embed.ts`, the annotation decorators and the type-only files have no logic of their own and are not modelled.

## Findings

| source | as written | input that shows it | evidently intended | confidence | as-written member | corrected member |
|---|---|---|---|---|---|---|
| packages/dynamodb-data-mapper/src/marshallStartKey.ts:14-16 | `attributeName` is destructured from `schema[key]` before the `if (propSchema)` guard, so any start-key property the schema does not describe throws a TypeError | start key `{foo: 1}` against an empty schema | properties the schema does not describe are skipped, as the guard suggests | high, not executed | StartKey.AsWrittenRejectsUnknown | StartKey.MarshallStartKey |
| packages/dynamodb-expressions/src/ExpressionAttributes.ts:61 | `name in this.nameMap` also sees members inherited from `Object.prototype`, so such a name is never given a placeholder and the inherited function is returned instead | `addAttributeName('toString')` on a fresh table | every attribute name gets a `#attrN` placeholder recorded in `names` | medium, not executed | ExpressionAttributes.InheritedNameNotSubstituted | ExpressionAttributes.AddAttributeNameFresh |
| packages/dynamodb-data-marshaller/src/SchemaType.ts:81 | `type in TypeTags` (and `keyType in KeyTypes` at lines 116 and 122) accept inherited member names | `{type: 'toString'}` | only the listed type tags and key types are accepted | medium, not executed | SchemaValidation.InheritedTagAccepted | SchemaValidation.IsSchemaTypeFresh |
