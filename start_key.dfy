/** `marshallStartKey`: the `ExclusiveStartKey` of a query or scan, built from
    a start key given in property names by marshalling each property with its
    field's schema and storing it under the field's attribute name. The data
    marshaller's `marshallValue` is the parameter `marshall`. */
module StartKey {
  import opened Wrappers
  import opened Values
  import opened SchemaTypes
  import DM = DataMarshall

  /** A key as the loop builds it: `marshallValue` may give `undefined`, and
      the key then holds that property as an explicit `undefined` entry. */
  type StartKeyMap = seq<(string, Option<AttributeValue>)>

  /** What destructuring `attributeName` out of an `undefined` schema entry throws. */
  const DestructureError := "TypeError: Cannot destructure property 'attributeName' of 'propSchema' as it is undefined."

  // ---------------------------------------------------------------------------
  // As written: the destructuring comes before the `if (propSchema)` guard

  /** The loop of `marshallStartKey` as written: a property the schema does
      not describe makes the destructuring throw, so the guard never skips
      anything. */
  function StartKeyAsWritten(marshall: DM.ValueMarshaller, schema: Schema, startKey: seq<(string, JsValue)>)
    : (r: Result<StartKeyMap>)
    decreases |startKey|
  {
    if |startKey| == 0 then Ok([])
    else
      match StartKeyAsWritten(marshall, schema, startKey[..|startKey| - 1])
      case Err(e) => Err(e)
      case Ok(key) =>
        var (name, value) := startKey[|startKey| - 1];
        match Get(schema, name)
        case None => Err(DestructureError)
        case Some(field) =>
          match marshall(field, value)
          case Err(e) => Err(e)
          case Ok(a) => Ok(Put(key, field.attributeName.GetOr(name), a))
  }

  /** As written, a start key naming any property outside the schema is
      rejected, whatever its other properties hold. */
  lemma {:induction false} AsWrittenRejectsUnknown(marshall: DM.ValueMarshaller, schema: Schema, startKey: seq<(string, JsValue)>, i: int)
    requires 0 <= i < |startKey| && Get(schema, startKey[i].0).None?
    ensures StartKeyAsWritten(marshall, schema, startKey).Err?
    decreases |startKey|
  {
    var n := |startKey| - 1;
    if i < n {
      assert startKey[..n][i] == startKey[i];
      AsWrittenRejectsUnknown(marshall, schema, startKey[..n], i);
    }
  }

  /** The smallest case: an empty schema and the start key `{foo: 1}`. */
  lemma AsWrittenEmptySchemaExample(marshall: DM.ValueMarshaller)
    ensures StartKeyAsWritten(marshall, [], [("foo", Num(1))]) == Err(DestructureError)
  {
    AsWrittenRejectsUnknown(marshall, [], [("foo", Num(1))], 0);
  }

  // ---------------------------------------------------------------------------
  // Corrected: properties outside the schema are skipped

  /** The loop of `marshallStartKey` with the guard in front of the
      destructuring: a property the schema does not describe is skipped. */
  function StartKeyFold(marshall: DM.ValueMarshaller, schema: Schema, startKey: seq<(string, JsValue)>)
    : (r: Result<StartKeyMap>)
    decreases |startKey|
  {
    if |startKey| == 0 then Ok([])
    else
      match StartKeyFold(marshall, schema, startKey[..|startKey| - 1])
      case Err(e) => Err(e)
      case Ok(key) =>
        var (name, value) := startKey[|startKey| - 1];
        match Get(schema, name)
        case None => Ok(key)
        case Some(field) =>
          match marshall(field, value)
          case Err(e) => Err(e)
          case Ok(a) => Ok(Put(key, field.attributeName.GetOr(name), a))
  }

  method MarshallStartKey(marshall: DM.ValueMarshaller, schema: Schema, startKey: seq<(string, JsValue)>)
    returns (r: Result<StartKeyMap>)
    ensures r == StartKeyFold(marshall, schema, startKey)
  {
    var key: StartKeyMap := [];
    var i := 0;
    while i < |startKey|
      invariant 0 <= i <= |startKey|
      invariant StartKeyFold(marshall, schema, startKey[..i]) == Ok(key)
    {
      assert startKey[..i + 1][..i] == startKey[..i];
      var (propertyName, value) := startKey[i];
      var propSchema := Get(schema, propertyName);
      if propSchema.Some? {
        var attributeName := propSchema.value.attributeName.GetOr(propertyName);
        var marshalled := marshall(propSchema.value, value);
        if marshalled.Err? {
          StartKeyErrSticky(marshall, schema, startKey[..i + 1], startKey);
          return Err(marshalled.error);
        }
        key := Put(key, attributeName, marshalled.value);
      }
      i := i + 1;
    }
    assert startKey[..i] == startKey;
    r := Ok(key);
  }

  lemma {:induction false} StartKeyErrSticky(marshall: DM.ValueMarshaller, schema: Schema, pre: seq<(string, JsValue)>,
                                             full: seq<(string, JsValue)>)
    requires pre <= full
    requires StartKeyFold(marshall, schema, pre).Err?
    ensures StartKeyFold(marshall, schema, full) == StartKeyFold(marshall, schema, pre)
    decreases |full|
  {
    if |full| > |pre| {
      StartKeyErrSticky(marshall, schema, pre, full[..|full| - 1]);
    } else {
      assert pre == full;
    }
  }

  // ---------------------------------------------------------------------------
  // Properties of the corrected loop

  /** On a start key whose every property the schema describes, the
      corrected loop is the loop as written. */
  lemma {:induction false} CorrectedAgreesWhenAllKnown(marshall: DM.ValueMarshaller, schema: Schema, startKey: seq<(string, JsValue)>)
    requires forall i :: 0 <= i < |startKey| ==> Get(schema, startKey[i].0).Some?
    ensures StartKeyFold(marshall, schema, startKey) == StartKeyAsWritten(marshall, schema, startKey)
    decreases |startKey|
  {
    if |startKey| > 0 {
      var pre := startKey[..|startKey| - 1];
      assert forall i :: 0 <= i < |pre| ==> pre[i] == startKey[i];
      CorrectedAgreesWhenAllKnown(marshall, schema, pre);
    }
  }

  /** The properties of a start key that the schema describes, in order. */
  function KnownProperties(schema: Schema, startKey: seq<(string, JsValue)>): (r: seq<(string, JsValue)>)
    ensures forall e :: e in r ==> e in startKey && Get(schema, e.0).Some?
    decreases |startKey|
  {
    if |startKey| == 0 then []
    else
      var rest := KnownProperties(schema, startKey[..|startKey| - 1]);
      if Get(schema, startKey[|startKey| - 1].0).Some? then rest + [startKey[|startKey| - 1]] else rest
  }

  /** The corrected loop ignores the properties outside the schema: it is the
      loop as written run over the known properties alone. */
  lemma {:induction false} CorrectedIgnoresUnknown(marshall: DM.ValueMarshaller, schema: Schema, startKey: seq<(string, JsValue)>)
    ensures StartKeyFold(marshall, schema, startKey) == StartKeyAsWritten(marshall, schema, KnownProperties(schema, startKey))
    decreases |startKey|
  {
    if |startKey| > 0 {
      var pre := startKey[..|startKey| - 1];
      var known := KnownProperties(schema, startKey);
      CorrectedIgnoresUnknown(marshall, schema, pre);
      if Get(schema, startKey[|startKey| - 1].0).Some? {
        assert known[..|known| - 1] == KnownProperties(schema, pre);
      }
    }
  }

  /** The corrected loop fails exactly when marshalling a known property
      fails. */
  lemma {:induction false} StartKeyDefined(marshall: DM.ValueMarshaller, schema: Schema, startKey: seq<(string, JsValue)>)
    ensures StartKeyFold(marshall, schema, startKey).Ok? <==>
      forall i, f :: 0 <= i < |startKey| && Get(schema, startKey[i].0) == Some(f) ==>
        marshall(f, startKey[i].1).Ok?
    decreases |startKey|
  {
    if |startKey| > 0 {
      var n := |startKey| - 1;
      var pre := startKey[..n];
      assert forall i :: 0 <= i < n ==> pre[i] == startKey[i];
      StartKeyDefined(marshall, schema, pre);
    }
  }

  /** Whether the known property at `i` is the last known one stored under
      its attribute name. */
  predicate LastWriter(schema: Schema, startKey: seq<(string, JsValue)>, i: int)
    requires 0 <= i < |startKey|
  {
    forall j :: i < j < |startKey| && Get(schema, startKey[j].0).Some? ==>
      GetSchemaName(startKey[j].0, schema) != GetSchemaName(startKey[i].0, schema)
  }

  /** Whether some known property of the start key is stored under `k`. */
  predicate NamedBy(schema: Schema, startKey: seq<(string, JsValue)>, k: string)
  {
    exists i :: 0 <= i < |startKey| && Get(schema, startKey[i].0).Some? && GetSchemaName(startKey[i].0, schema) == k
  }

  /** The entries of a corrected start key are exactly the attribute names of
      the known properties, each once. */
  lemma {:induction false} StartKeyNames(marshall: DM.ValueMarshaller, schema: Schema, startKey: seq<(string, JsValue)>)
    requires StartKeyFold(marshall, schema, startKey).Ok?
    ensures var key := StartKeyFold(marshall, schema, startKey).value;
      && DistinctKeys(key)
      && (forall k :: k in Keys(key) <==>
            exists i :: 0 <= i < |startKey| && Get(schema, startKey[i].0).Some?
                        && GetSchemaName(startKey[i].0, schema) == k)
    decreases |startKey|
  {
    if |startKey| > 0 {
      var n := |startKey| - 1;
      var pre := startKey[..n];
      StartKeyNames(marshall, schema, pre);
      var m := StartKeyFold(marshall, schema, pre).value;
      var key := StartKeyFold(marshall, schema, startKey).value;
      var name := startKey[n].0;
      var t := GetSchemaName(name, schema);
      if Get(schema, name).Some? {
        var a := marshall(Get(schema, name).value, startKey[n].1).value;
        assert key == Put(m, t, a);
        PutKeepsDistinct(m, t, a);
        KeysPut(m, t, a);
      }
      forall k ensures k in Keys(key) <==> NamedBy(schema, startKey, k) {
        NamedByStep(schema, startKey, k);
      }
    }
  }

  lemma NamedByStep(schema: Schema, startKey: seq<(string, JsValue)>, k: string)
    requires |startKey| > 0
    ensures var n := |startKey| - 1;
      NamedBy(schema, startKey, k) <==>
        NamedBy(schema, startKey[..n], k)
        || (Get(schema, startKey[n].0).Some? && GetSchemaName(startKey[n].0, schema) == k)
  {
    var n := |startKey| - 1;
    if NamedBy(schema, startKey[..n], k) {
      var i :| 0 <= i < n && Get(schema, startKey[..n][i].0).Some? && GetSchemaName(startKey[..n][i].0, schema) == k;
      assert startKey[..n][i] == startKey[i];
    }
    if NamedBy(schema, startKey, k) {
      var i :| 0 <= i < |startKey| && Get(schema, startKey[i].0).Some? && GetSchemaName(startKey[i].0, schema) == k;
      if i < n {
        assert startKey[..n][i] == startKey[i];
      }
    }
  }

  /** Each attribute name of a corrected start key holds the marshalled value
      of the last known property stored under it, `undefined` included. */
  lemma {:induction false} StartKeyValues(marshall: DM.ValueMarshaller, schema: Schema, startKey: seq<(string, JsValue)>)
    requires StartKeyFold(marshall, schema, startKey).Ok?
    ensures var key := StartKeyFold(marshall, schema, startKey).value;
      forall i, f :: 0 <= i < |startKey| && Get(schema, startKey[i].0) == Some(f) && LastWriter(schema, startKey, i) ==>
        && Get(key, GetSchemaName(startKey[i].0, schema)).Some?
        && marshall(f, startKey[i].1) == Ok(Get(key, GetSchemaName(startKey[i].0, schema)).value)
    decreases |startKey|
  {
    if |startKey| > 0 {
      var n := |startKey| - 1;
      var pre := startKey[..n];
      assert forall i :: 0 <= i < n ==> pre[i] == startKey[i];
      StartKeyValues(marshall, schema, pre);
      var m := StartKeyFold(marshall, schema, pre).value;
      var key := StartKeyFold(marshall, schema, startKey).value;
      var (name, value) := startKey[n];
      forall i, f | 0 <= i < |startKey| && Get(schema, startKey[i].0) == Some(f) && LastWriter(schema, startKey, i)
        ensures Get(key, GetSchemaName(startKey[i].0, schema)).Some?
        ensures marshall(f, startKey[i].1) == Ok(Get(key, GetSchemaName(startKey[i].0, schema)).value)
      {
        var t := GetSchemaName(startKey[i].0, schema);
        if i < n {
          assert LastWriter(schema, pre, i);
        }
        if Get(schema, name).Some? {
          var a := marshall(Get(schema, name).value, value).value;
          GetPut(m, GetSchemaName(name, schema), a, t);
        }
      }
    }
  }
}
