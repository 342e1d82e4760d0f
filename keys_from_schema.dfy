/** `keysFromSchema`: the key attributes, table keys and per-index keys a
    schema declares, each keyed by attribute name. */
module KeysFromSchema {
  import opened Wrappers
  import opened Values
  import opened SchemaTypes

  datatype KeySchema = KeySchema(
    attributes: seq<(string, ScalarAttributeType)>,
    tableKeys: seq<(string, KeyType)>,
    indexKeys: seq<(string, seq<(string, KeyType)>)>)

  const NoKeys := KeySchema([], [], [])

  /** The attribute name a field is stored under. */
  function FieldName(propertyName: string, field: SchemaType): string
  {
    field.attributeName.GetOr(propertyName)
  }

  /** A keyable field with a table key type or at least one index configuration. */
  predicate DeclaresKey(field: SchemaType)
  {
    Keyable(field.node) &&
    (field.node.keys.keyType.Some? || |field.node.keys.indexKeyConfigurations| > 0)
  }

  /** `indexKeys[indexName][name] = keyType` for each configured index in turn. */
  function AddIndexKeys(indexKeys: seq<(string, seq<(string, KeyType)>)>, name: string,
                        configs: seq<(string, KeyType)>): seq<(string, seq<(string, KeyType)>)>
    decreases |configs|
  {
    if |configs| == 0 then indexKeys
    else
      var prev := AddIndexKeys(indexKeys, name, configs[..|configs| - 1]);
      var c := configs[|configs| - 1];
      Put(prev, c.0, Put(Get(prev, c.0).GetOr([]), name, c.1))
  }

  /** One iteration of the loop over the schema's properties. */
  function FieldKeys(ks: KeySchema, propertyName: string, field: SchemaType): Result<KeySchema>
  {
    if !Keyable(field.node) then Ok(ks)
    else
      var name := FieldName(propertyName, field);
      var keys := field.node.keys;
      var withTable :=
        if keys.keyType.None? then Ok(ks)
        else match AttributeType(field)
          case Err(e) => Err(e)
          case Ok(t) => Ok(ks.(attributes := Put(ks.attributes, name, t),
                               tableKeys := Put(ks.tableKeys, name, keys.keyType.value)));
      if withTable.Err? || |keys.indexKeyConfigurations| == 0 then withTable
      else match AttributeType(field)
        case Err(e) => Err(e)
        case Ok(t) =>
          Ok(withTable.value.(attributes := Put(withTable.value.attributes, name, t),
                              indexKeys := AddIndexKeys(withTable.value.indexKeys, name, keys.indexKeyConfigurations)))
  }

  /** What `keysFromSchema` returns, or the error it throws. */
  function KeysFromSchemaSpec(schema: Schema): Result<KeySchema>
    decreases |schema|
  {
    if |schema| == 0 then Ok(NoKeys)
    else match KeysFromSchemaSpec(schema[..|schema| - 1])
      case Err(e) => Err(e)
      case Ok(ks) => FieldKeys(ks, schema[|schema| - 1].0, schema[|schema| - 1].1)
  }

  /** `keysFromSchema`: one pass over the properties, filling the three maps. */
  method KeysFromSchema(schema: Schema) returns (r: Result<KeySchema>)
    ensures r == KeysFromSchemaSpec(schema)
  {
    var ks := NoKeys;
    var i := 0;
    while i < |schema|
      invariant 0 <= i <= |schema|
      invariant KeysFromSchemaSpec(schema[..i]) == Ok(ks)
    {
      assert schema[..i + 1][..i] == schema[..i];
      var next := AddFieldKeys(ks, schema[i].0, schema[i].1);
      if next.Err? {
        ErrSticky(schema, i + 1);
        return next;
      }
      ks := next.value;
      i := i + 1;
    }
    assert schema[..i] == schema;
    r := Ok(ks);
  }

  /** The body of the loop over properties, for one field. */
  method AddFieldKeys(ks: KeySchema, propertyName: string, field: SchemaType) returns (r: Result<KeySchema>)
    ensures r == FieldKeys(ks, propertyName, field)
  {
    if !Keyable(field.node) {
      return Ok(ks);
    }
    var attributeName := FieldName(propertyName, field);
    var keyType := field.node.keys.keyType;
    var configs := field.node.keys.indexKeyConfigurations;
    var attributes := ks.attributes;
    var tableKeys := ks.tableKeys;
    if keyType.Some? {
      var t := AttributeType(field);
      if t.Err? {
        return Err(t.error);
      }
      attributes := Put(attributes, attributeName, t.value);
      tableKeys := Put(tableKeys, attributeName, keyType.value);
    }
    var indexKeys := ks.indexKeys;
    if |configs| > 0 {
      var t := AttributeType(field);
      if t.Err? {
        return Err(t.error);
      }
      attributes := Put(attributes, attributeName, t.value);
      indexKeys := AddIndexKeysLoop(indexKeys, attributeName, configs);
    }
    r := Ok(KeySchema(attributes, tableKeys, indexKeys));
  }

  /** The inner loop over one field's index configurations. */
  method AddIndexKeysLoop(start: seq<(string, seq<(string, KeyType)>)>, attributeName: string,
                          configs: seq<(string, KeyType)>) returns (indexKeys: seq<(string, seq<(string, KeyType)>)>)
    ensures indexKeys == AddIndexKeys(start, attributeName, configs)
  {
    indexKeys := start;
    var j := 0;
    while j < |configs|
      invariant 0 <= j <= |configs|
      invariant indexKeys == AddIndexKeys(start, attributeName, configs[..j])
    {
      assert configs[..j + 1][..j] == configs[..j];
      var (indexName, kt) := configs[j];
      var perIndex: seq<(string, KeyType)> := [];
      if indexName in Keys(indexKeys) {
        perIndex := Get(indexKeys, indexName).value;
      }
      indexKeys := Put(indexKeys, indexName, Put(perIndex, attributeName, kt));
      j := j + 1;
    }
    assert configs[..j] == configs;
  }

  lemma {:induction false} ErrSticky(schema: Schema, n: nat)
    requires 0 < n <= |schema|
    requires KeysFromSchemaSpec(schema[..n - 1]).Ok?
    requires FieldKeys(KeysFromSchemaSpec(schema[..n - 1]).value, schema[n - 1].0, schema[n - 1].1).Err?
    ensures KeysFromSchemaSpec(schema) == Err(FieldKeys(KeysFromSchemaSpec(schema[..n - 1]).value, schema[n - 1].0, schema[n - 1].1).error)
    decreases |schema|
  {
    if n == |schema| {
      assert schema[..|schema| - 1] == schema[..n - 1];
    } else {
      var pre := schema[..|schema| - 1];
      assert pre[..n - 1] == schema[..n - 1] && pre[n - 1] == schema[n - 1];
      ErrSticky(pre, n);
    }
  }

  // ---------------------------------------------------------------------------
  // Reference definitions: the last field writing a name decides its entry

  /** The table key type recorded for attribute `name`. */
  function TableKeyOf(schema: Schema, name: string): Option<KeyType>
    decreases |schema|
  {
    if |schema| == 0 then None
    else
      var (p, f) := schema[|schema| - 1];
      if IsKey(f, None) && FieldName(p, f) == name then Some(f.node.keys.keyType.value)
      else TableKeyOf(schema[..|schema| - 1], name)
  }

  /** The scalar type recorded for attribute `name`. */
  function AttributeOf(schema: Schema, name: string): Option<ScalarAttributeType>
    decreases |schema|
  {
    if |schema| == 0 then None
    else
      var (p, f) := schema[|schema| - 1];
      if DeclaresKey(f) && FieldName(p, f) == name && AttributeType(f).Ok? then Some(AttributeType(f).value)
      else AttributeOf(schema[..|schema| - 1], name)
  }

  /** The key type recorded for attribute `name` in index `indexName`. */
  function IndexKeyOf(schema: Schema, indexName: string, name: string): Option<KeyType>
    decreases |schema|
  {
    if |schema| == 0 then None
    else
      var (p, f) := schema[|schema| - 1];
      if Keyable(f.node) && FieldName(p, f) == name && indexName in Keys(f.node.keys.indexKeyConfigurations)
      then Get(f.node.keys.indexKeyConfigurations, indexName)
      else IndexKeyOf(schema[..|schema| - 1], indexName, name)
  }

  /** Some keyable field configures index `indexName`. */
  predicate IndexDeclared(schema: Schema, indexName: string)
  {
    exists i :: 0 <= i < |schema| && Keyable(schema[i].1.node) &&
      indexName in Keys(schema[i].1.node.keys.indexKeyConfigurations)
  }

  /** Index configurations are JavaScript objects: one entry per index name. */
  predicate ConfigsDistinct(schema: Schema)
  {
    forall i :: 0 <= i < |schema| && Keyable(schema[i].1.node) ==>
      DistinctKeys(schema[i].1.node.keys.indexKeyConfigurations)
  }

  // ---------------------------------------------------------------------------
  // Properties

  /** The effect of one field on each of the three maps. */
  lemma FieldKeysEffect(ks: KeySchema, p: string, f: SchemaType, ks': KeySchema)
    requires FieldKeys(ks, p, f) == Ok(ks')
    ensures ks'.tableKeys == if IsKey(f, None) then Put(ks.tableKeys, FieldName(p, f), f.node.keys.keyType.value) else ks.tableKeys
    ensures !DeclaresKey(f) ==> ks'.attributes == ks.attributes
    ensures DeclaresKey(f) ==> AttributeType(f).Ok? && Get(ks'.attributes, FieldName(p, f)) == Some(AttributeType(f).value)
    ensures DeclaresKey(f) ==> forall n :: n != FieldName(p, f) ==> Get(ks'.attributes, n) == Get(ks.attributes, n)
    ensures ks'.indexKeys == if Keyable(f.node) then AddIndexKeys(ks.indexKeys, FieldName(p, f), f.node.keys.indexKeyConfigurations) else ks.indexKeys
  {
    if DeclaresKey(f) {
      var name := FieldName(p, f);
      var t := AttributeType(f).value;
      forall n ensures Get(ks'.attributes, n) == if n == name then Some(t) else Get(ks.attributes, n) {
        if f.node.keys.keyType.Some? && |f.node.keys.indexKeyConfigurations| > 0 {
          GetPut(ks.attributes, name, t, n);
          GetPut(Put(ks.attributes, name, t), name, t, n);
        } else {
          GetPut(ks.attributes, name, t, n);
        }
      }
    }
  }

  /** Non-keyable fields contribute nothing: dropping them changes no map. */
  function KeyableOnly(schema: Schema): (r: Schema)
    ensures forall i :: 0 <= i < |r| ==> Keyable(r[i].1.node)
    decreases |schema|
  {
    if |schema| == 0 then []
    else
      var pre := KeyableOnly(schema[..|schema| - 1]);
      if Keyable(schema[|schema| - 1].1.node) then pre + [schema[|schema| - 1]] else pre
  }

  lemma {:induction false} NonKeyableIgnored(schema: Schema)
    ensures KeysFromSchemaSpec(KeyableOnly(schema)) == KeysFromSchemaSpec(schema)
    decreases |schema|
  {
    if |schema| > 0 {
      var pre := schema[..|schema| - 1];
      NonKeyableIgnored(pre);
      var k := KeyableOnly(pre);
      if Keyable(schema[|schema| - 1].1.node) {
        assert (k + [schema[|schema| - 1]])[..|k|] == k;
      }
    }
  }

  /** `keysFromSchema` throws exactly when some field declaring a key is a
      custom field without an attribute type. */
  lemma {:induction false} ThrowsIffUntypedCustomKey(schema: Schema)
    ensures KeysFromSchemaSpec(schema).Err? <==>
              exists i :: 0 <= i < |schema| && DeclaresKey(schema[i].1) && AttributeType(schema[i].1).Err?
    ensures KeysFromSchemaSpec(schema).Err? ==>
              KeysFromSchemaSpec(schema).error == UntypedCustomField
    decreases |schema|
  {
    if |schema| > 0 {
      var pre := schema[..|schema| - 1];
      ThrowsIffUntypedCustomKey(pre);
      if exists i :: 0 <= i < |pre| && DeclaresKey(pre[i].1) && AttributeType(pre[i].1).Err? {
        var i :| 0 <= i < |pre| && DeclaresKey(pre[i].1) && AttributeType(pre[i].1).Err?;
        assert schema[i] == pre[i];
      }
      if exists i :: 0 <= i < |schema| && DeclaresKey(schema[i].1) && AttributeType(schema[i].1).Err? {
        var i :| 0 <= i < |schema| && DeclaresKey(schema[i].1) && AttributeType(schema[i].1).Err?;
        if i < |pre| {
          assert pre[i] == schema[i];
        }
      }
    }
  }

  /** Every table key and every index key name is also listed in `attributes`. */
  predicate Covered(ks: KeySchema)
  {
    (forall n :: n in Keys(ks.tableKeys) ==> n in Keys(ks.attributes)) &&
    (forall e, n :: e in ks.indexKeys && n in Keys(e.1) ==> n in Keys(ks.attributes))
  }

  lemma {:induction false} AddIndexKeysNames(ik: seq<(string, seq<(string, KeyType)>)>, name: string, cs: seq<(string, KeyType)>)
    ensures forall e, n :: e in AddIndexKeys(ik, name, cs) && n in Keys(e.1) ==>
              n == name || exists e0 :: e0 in ik && n in Keys(e0.1)
    decreases |cs|
  {
    if |cs| > 0 {
      var pre := cs[..|cs| - 1];
      var prev := AddIndexKeys(ik, name, pre);
      var c := cs[|cs| - 1];
      AddIndexKeysNames(ik, name, pre);
      var inner := Get(prev, c.0).GetOr([]);
      PutEntries(prev, c.0, Put(inner, name, c.1));
      KeysPut(inner, name, c.1);
      forall e, n | e in AddIndexKeys(ik, name, cs) && n in Keys(e.1)
        ensures n == name || exists e0 :: e0 in ik && n in Keys(e0.1)
      {
        if e !in prev && n != name {
          assert n in Keys(inner);
          GetIn(prev, c.0);
        }
      }
    }
  }

  /** A value found by `Get` is bound in the list. */
  lemma {:induction false} GetIn<T>(m: seq<(string, T)>, k: string)
    ensures Get(m, k).Some? ==> (k, Get(m, k).value) in m
    decreases |m|
  {
    if |m| > 0 && m[0].0 != k {
      GetIn(m[1..], k);
    }
  }

  lemma KeysFromSchemaCovered(schema: Schema)
    requires KeysFromSchemaSpec(schema).Ok?
    ensures Covered(KeysFromSchemaSpec(schema).value)
  {
    CoveredUpTo(schema);
  }

  lemma {:induction false} CoveredUpTo(schema: Schema)
    requires KeysFromSchemaSpec(schema).Ok?
    ensures Covered(KeysFromSchemaSpec(schema).value)
    decreases |schema|
  {
    if |schema| > 0 {
      var pre := schema[..|schema| - 1];
      CoveredUpTo(pre);
      var ks := KeysFromSchemaSpec(pre).value;
      var (p, f) := schema[|schema| - 1];
      var ks' := KeysFromSchemaSpec(schema).value;
      FieldKeysEffect(ks, p, f, ks');
      if DeclaresKey(f) {
        var name := FieldName(p, f);
        forall n | n in Keys(ks.attributes) ensures n in Keys(ks'.attributes) {
          if n != name {
            assert Get(ks'.attributes, n) == Get(ks.attributes, n);
          }
        }
        assert name in Keys(ks'.attributes);
        if IsKey(f, None) {
          KeysPut(ks.tableKeys, name, f.node.keys.keyType.value);
        }
        AddIndexKeysNames(ks.indexKeys, name, f.node.keys.indexKeyConfigurations);
      } else if Keyable(f.node) {
        assert |f.node.keys.indexKeyConfigurations| == 0;
      }
    }
  }

  /** Index keys after adding one field's configurations (one entry per index). */
  lemma {:induction false} AddIndexKeysGet(ik: seq<(string, seq<(string, KeyType)>)>, name: string,
                                           cs: seq<(string, KeyType)>, indexName: string)
    requires DistinctKeys(cs)
    ensures Get(AddIndexKeys(ik, name, cs), indexName) ==
              if indexName in Keys(cs) then Some(Put(Get(ik, indexName).GetOr([]), name, Get(cs, indexName).value))
              else Get(ik, indexName)
    decreases |cs|
  {
    if |cs| > 0 {
      var pre := cs[..|cs| - 1];
      var c := cs[|cs| - 1];
      assert pre + [c] == cs;
      AddIndexKeysGet(ik, name, pre, indexName);
      var prev := AddIndexKeys(ik, name, pre);
      GetPut(prev, c.0, Put(Get(prev, c.0).GetOr([]), name, c.1), indexName);
      GetSnoc(pre, c, indexName);
      if indexName == c.0 {
        assert c.0 !in Keys(pre);
        AddIndexKeysGet(ik, name, pre, c.0);
      }
    }
  }

  /** The table keys are exactly those of the reference definition. */
  lemma {:induction false} TableKeysAgree(schema: Schema, name: string)
    requires KeysFromSchemaSpec(schema).Ok?
    ensures Get(KeysFromSchemaSpec(schema).value.tableKeys, name) == TableKeyOf(schema, name)
    decreases |schema|
  {
    if |schema| > 0 {
      var pre := schema[..|schema| - 1];
      TableKeysAgree(pre, name);
      var (p, f) := schema[|schema| - 1];
      FieldKeysEffect(KeysFromSchemaSpec(pre).value, p, f, KeysFromSchemaSpec(schema).value);
      if IsKey(f, None) {
        GetPut(KeysFromSchemaSpec(pre).value.tableKeys, FieldName(p, f), f.node.keys.keyType.value, name);
      }
    }
  }

  /** The attribute types are exactly those of the reference definition. */
  lemma {:induction false} AttributesAgree(schema: Schema, name: string)
    requires KeysFromSchemaSpec(schema).Ok?
    ensures Get(KeysFromSchemaSpec(schema).value.attributes, name) == AttributeOf(schema, name)
    decreases |schema|
  {
    if |schema| > 0 {
      var pre := schema[..|schema| - 1];
      AttributesAgree(pre, name);
      var (p, f) := schema[|schema| - 1];
      FieldKeysEffect(KeysFromSchemaSpec(pre).value, p, f, KeysFromSchemaSpec(schema).value);
    }
  }

  /** The per-index keys are exactly those of the reference definition. */
  lemma {:induction false} IndexKeysAgree(schema: Schema, indexName: string, name: string)
    requires KeysFromSchemaSpec(schema).Ok? && ConfigsDistinct(schema)
    ensures Get(KeysFromSchemaSpec(schema).value.indexKeys, indexName).Some? <==> IndexDeclared(schema, indexName)
    ensures Get(Get(KeysFromSchemaSpec(schema).value.indexKeys, indexName).GetOr([]), name) == IndexKeyOf(schema, indexName, name)
    decreases |schema|
  {
    if |schema| > 0 {
      var pre := schema[..|schema| - 1];
      assert ConfigsDistinct(pre) by {
        forall i | 0 <= i < |pre| && Keyable(pre[i].1.node) ensures DistinctKeys(pre[i].1.node.keys.indexKeyConfigurations) {
          assert pre[i] == schema[i];
        }
      }
      IndexKeysAgree(pre, indexName, name);
      var (p, f) := schema[|schema| - 1];
      var ks := KeysFromSchemaSpec(pre).value;
      FieldKeysEffect(ks, p, f, KeysFromSchemaSpec(schema).value);
      if Keyable(f.node) {
        var cs := f.node.keys.indexKeyConfigurations;
        assert DistinctKeys(cs) by { assert schema[|schema| - 1].1 == f; }
        AddIndexKeysGet(ks.indexKeys, FieldName(p, f), cs, indexName);
        if indexName in Keys(cs) {
          GetPut(Get(ks.indexKeys, indexName).GetOr([]), FieldName(p, f), Get(cs, indexName).value, name);
        }
      }
      assert IndexDeclared(schema, indexName) <==>
             IndexDeclared(pre, indexName) ||
             (Keyable(f.node) && indexName in Keys(f.node.keys.indexKeyConfigurations)) by {
        if IndexDeclared(schema, indexName) {
          var i :| 0 <= i < |schema| && Keyable(schema[i].1.node) &&
                   indexName in Keys(schema[i].1.node.keys.indexKeyConfigurations);
          if i < |pre| {
            assert pre[i] == schema[i];
          }
        }
        if IndexDeclared(pre, indexName) {
          var i :| 0 <= i < |pre| && Keyable(pre[i].1.node) &&
                   indexName in Keys(pre[i].1.node.keys.indexKeyConfigurations);
          assert schema[i] == pre[i];
        }
      }
    }
  }

  /** A name is a table key exactly when some field that `isKey` accepts for
      the table is stored under it. */
  lemma {:induction false} TableKeyIffIsKey(schema: Schema, name: string)
    ensures TableKeyOf(schema, name).Some? <==>
              exists i :: 0 <= i < |schema| && IsKey(schema[i].1, None) && NameAt(schema, i) == name
    decreases |schema|
  {
    if |schema| > 0 {
      var pre := schema[..|schema| - 1];
      TableKeyIffIsKey(pre, name);
      if exists i :: 0 <= i < |pre| && IsKey(pre[i].1, None) && NameAt(pre, i) == name {
        var i :| 0 <= i < |pre| && IsKey(pre[i].1, None) && NameAt(pre, i) == name;
        assert schema[i] == pre[i];
      }
      if exists i :: 0 <= i < |schema| && IsKey(schema[i].1, None) && NameAt(schema, i) == name {
        var i :| 0 <= i < |schema| && IsKey(schema[i].1, None) && NameAt(schema, i) == name;
        if i < |pre| {
          assert pre[i] == schema[i];
        }
      }
    }
  }

  /** A name has an entry for an index exactly when some field that `isKey`
      accepts for that index is stored under it. */
  lemma {:induction false} IndexKeyIffIsKey(schema: Schema, indexName: string, name: string)
    requires indexName != ""
    ensures IndexKeyOf(schema, indexName, name).Some? <==>
              exists i :: 0 <= i < |schema| && IsKey(schema[i].1, Some(indexName)) && NameAt(schema, i) == name
    decreases |schema|
  {
    if |schema| > 0 {
      var pre := schema[..|schema| - 1];
      IndexKeyIffIsKey(pre, indexName, name);
      var f := schema[|schema| - 1].1;
      if Keyable(f.node) && indexName in Keys(f.node.keys.indexKeyConfigurations) {
        assert Get(f.node.keys.indexKeyConfigurations, indexName).Some?;
      }
      if exists i :: 0 <= i < |pre| && IsKey(pre[i].1, Some(indexName)) && NameAt(pre, i) == name {
        var i :| 0 <= i < |pre| && IsKey(pre[i].1, Some(indexName)) && NameAt(pre, i) == name;
        assert schema[i] == pre[i];
      }
      if exists i :: 0 <= i < |schema| && IsKey(schema[i].1, Some(indexName)) && NameAt(schema, i) == name {
        var i :| 0 <= i < |schema| && IsKey(schema[i].1, Some(indexName)) && NameAt(schema, i) == name;
        if i < |pre| {
          assert pre[i] == schema[i];
        }
      }
    }
  }
}
