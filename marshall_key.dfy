/** `marshallKey`: the key attributes of an item, for the table or for one of
    its secondary indexes, each marshalled with its field's schema. */
module MarshallKey {
  import opened Wrappers
  import opened Values
  import opened SchemaTypes
  import DM = DataMarshall
  import KeysFromSchema

  /** The loop of `marshallKey`: every field `isKey` accepts is read off the
      input, marshalled, and stored under its attribute name when defined. */
  function KeyFold(host: DM.Host, schema: Schema, input: JsValue, indexName: Option<string>)
    : (r: Result<seq<(string, AttributeValue)>>)
    decreases |schema|
  {
    if |schema| == 0 then Ok([])
    else
      match KeyFold(host, schema[..|schema| - 1], input, indexName)
      case Err(e) => Err(e)
      case Ok(m) =>
        var (key, field) := schema[|schema| - 1];
        if !IsKey(field, indexName) then Ok(m)
        else
          match DM.Prop(input, key)
          case Err(e) => Err(e)
          case Ok(x) =>
            match DM.MarshallValue(host, field, x)
            case Err(e) => Err(e)
            case Ok(None) => Ok(m)
            case Ok(Some(a)) => Ok(Put(m, field.attributeName.GetOr(key), a))
  }

  method MarshallKey(host: DM.Host, schema: Schema, input: JsValue, indexName: Option<string>)
    returns (r: Result<seq<(string, AttributeValue)>>)
    ensures r == KeyFold(host, schema, input, indexName)
  {
    var marshalled: seq<(string, AttributeValue)> := [];
    var i := 0;
    while i < |schema|
      invariant 0 <= i <= |schema|
      invariant KeyFold(host, schema[..i], input, indexName) == Ok(marshalled)
    {
      assert schema[..i + 1][..i] == schema[..i];
      var (propertyKey, fieldSchema) := schema[i];
      if IsKey(fieldSchema, indexName) {
        var attributeName := fieldSchema.attributeName.GetOr(propertyKey);
        var read := DM.Prop(input, propertyKey);
        if read.Err? {
          KeyErrSticky(host, schema[..i + 1], schema, input, indexName);
          return Err(read.error);
        }
        var value := DM.MarshallValue(host, fieldSchema, read.value);
        match value {
          case Err(e) =>
            KeyErrSticky(host, schema[..i + 1], schema, input, indexName);
            return Err(e);
          case Ok(None) =>
          case Ok(Some(a)) =>
            marshalled := Put(marshalled, attributeName, a);
        }
      }
      i := i + 1;
    }
    assert schema[..i] == schema;
    r := Ok(marshalled);
  }

  lemma {:induction false} KeyErrSticky(host: DM.Host, pre: Schema, full: Schema, input: JsValue, indexName: Option<string>)
    requires pre <= full
    requires KeyFold(host, pre, input, indexName).Err?
    ensures KeyFold(host, full, input, indexName) == KeyFold(host, pre, input, indexName)
    decreases |full|
  {
    if |full| > |pre| {
      KeyErrSticky(host, pre, full[..|full| - 1], input, indexName);
    } else {
      assert pre == full;
    }
  }

  // ---------------------------------------------------------------------------
  // Properties

  /** The fields `isKey` accepts, in schema order. */
  function KeyFields(schema: Schema, indexName: Option<string>): (r: Schema)
    ensures forall e :: e in r ==> e in schema && IsKey(e.1, indexName)
    decreases |schema|
  {
    if |schema| == 0 then []
    else
      var rest := KeyFields(schema[..|schema| - 1], indexName);
      if IsKey(schema[|schema| - 1].1, indexName) then rest + [schema[|schema| - 1]] else rest
  }

  /** One schema property added to a partial result: an error stays an
      error, an undefined value adds nothing, a defined one is stored. */
  function Extend(prev: Result<seq<(string, AttributeValue)>>, name: string, fv: DM.Marshalled)
    : (r: Result<seq<(string, AttributeValue)>>)
    ensures prev.Err? ==> r == prev
    ensures prev.Ok? && fv.Ok? && fv.value.None? ==> r == prev
    ensures prev.Ok? && fv.Err? ==> r == Err(fv.error)
    ensures prev.Ok? && fv.Ok? && fv.value.Some? ==> r == Ok(Put(prev.value, name, fv.value.value))
  {
    match prev
    case Err(e) => Err(e)
    case Ok(m) =>
      match fv
      case Err(e) => Err(e)
      case Ok(None) => Ok(m)
      case Ok(Some(a)) => Ok(Put(m, name, a))
  }

  lemma KeyFoldStep(host: DM.Host, schema: Schema, input: JsValue, indexName: Option<string>)
    requires |schema| > 0
    ensures var (key, field) := schema[|schema| - 1];
      var pre := KeyFold(host, schema[..|schema| - 1], input, indexName);
      KeyFold(host, schema, input, indexName)
        == if IsKey(field, indexName) then Extend(pre, field.attributeName.GetOr(key), DM.FieldValue(host, key, field, input))
           else pre
  {
  }

  lemma ItemFoldExtend(host: DM.Host, parent: SchemaType, schema: Schema, input: JsValue)
    requires parent.node.DocumentType? && schema <= parent.node.members && |schema| > 0
    ensures var (key, field) := schema[|schema| - 1];
      DM.ItemFold(host, parent, schema, input)
        == Extend(DM.ItemFold(host, parent, schema[..|schema| - 1], input), field.attributeName.GetOr(key),
                  DM.FieldValue(host, key, field, input))
  {
  }

  /** `marshallKey` is `marshallItem` over the key fields alone. */
  lemma {:induction false} KeyFoldIsItemOfKeys(host: DM.Host, parent: SchemaType, schema: Schema, input: JsValue,
                                               indexName: Option<string>)
    requires parent.node.DocumentType? && KeyFields(schema, indexName) <= parent.node.members
    ensures KeyFold(host, schema, input, indexName) == DM.ItemFold(host, parent, KeyFields(schema, indexName), input)
    decreases |schema|
  {
    if |schema| > 0 {
      var pre := schema[..|schema| - 1];
      var keys := KeyFields(schema, indexName);
      KeyFoldIsItemOfKeys(host, parent, pre, input, indexName);
      KeyFoldStep(host, schema, input, indexName);
      if IsKey(schema[|schema| - 1].1, indexName) {
        assert keys[..|keys| - 1] == KeyFields(pre, indexName);
        assert keys[|keys| - 1] == schema[|schema| - 1];
        ItemFoldExtend(host, parent, keys, input);
      } else {
        assert keys == KeyFields(pre, indexName);
      }
    }
  }

  /** Only key fields contribute: every attribute `marshallKey` writes is the
      attribute name of a field that `isKey` accepts, so for the table it is
      one of `keysFromSchema`'s table keys and for an index one of that
      index's keys. When those attribute names are distinct, each holds its
      field's `marshallValue` and is absent exactly when that is undefined. */
  lemma KeyFoldFields(host: DM.Host, schema: Schema, input: JsValue, indexName: Option<string>)
    requires KeyFold(host, schema, input, indexName).Ok?
    ensures forall k :: k in Keys(KeyFold(host, schema, input, indexName).value) ==>
      exists i :: 0 <= i < |schema| && IsKey(schema[i].1, indexName) && NameAt(schema, i) == k
    ensures forall k :: k in Keys(KeyFold(host, schema, input, indexName).value) ==>
      if IndexGiven(indexName) then KeysFromSchema.IndexKeyOf(schema, indexName.value, k).Some?
      else KeysFromSchema.TableKeyOf(schema, k).Some?
    ensures var keys := KeyFields(schema, indexName);
      Distinct(DM.AttributeNames(keys)) ==>
        forall j :: 0 <= j < |keys| ==>
          DM.FieldValue(host, keys[j].0, keys[j].1, input) == Ok(Get(KeyFold(host, schema, input, indexName).value, NameAt(keys, j)))
  {
    var keys := KeyFields(schema, indexName);
    var parent := Root(keys);
    KeyFoldIsItemOfKeys(host, parent, schema, input, indexName);
    DM.ItemFoldFields(host, parent, keys, input);
    var m := KeyFold(host, schema, input, indexName).value;
    forall k | k in Keys(m)
      ensures exists i :: 0 <= i < |schema| && IsKey(schema[i].1, indexName) && NameAt(schema, i) == k
      ensures if IndexGiven(indexName) then KeysFromSchema.IndexKeyOf(schema, indexName.value, k).Some?
              else KeysFromSchema.TableKeyOf(schema, k).Some?
    {
      var j :| 0 <= j < |keys| && DM.AttributeNames(keys)[j] == k;
      assert keys[j] in keys;
      var i :| 0 <= i < |schema| && schema[i] == keys[j];
      assert IsKey(schema[i].1, indexName) && NameAt(schema, i) == k;
      if IndexGiven(indexName) {
        KeysFromSchema.IndexKeyIffIsKey(schema, indexName.value, k);
        assert Some(indexName.value) == indexName;
      } else {
        KeysFromSchema.TableKeyIffIsKey(schema, k);
        assert IsKey(schema[i].1, None) == IsKey(schema[i].1, indexName);
      }
    }
  }

  /** Values of properties that are not keys never matter. */
  lemma {:induction false} NonKeyValuesIgnored(host: DM.Host, schema: Schema, input1: JsValue, input2: JsValue,
                                               indexName: Option<string>)
    requires forall i :: 0 <= i < |schema| && IsKey(schema[i].1, indexName) ==>
      DM.Prop(input1, schema[i].0) == DM.Prop(input2, schema[i].0)
    ensures KeyFold(host, schema, input1, indexName) == KeyFold(host, schema, input2, indexName)
    decreases |schema|
  {
    if |schema| > 0 {
      var pre := schema[..|schema| - 1];
      assert forall i :: 0 <= i < |pre| ==> pre[i] == schema[i];
      NonKeyValuesIgnored(host, pre, input1, input2, indexName);
    }
  }
}
