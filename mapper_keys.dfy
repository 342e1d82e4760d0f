/** The data mapper's key helpers: the key properties of a schema, the
    identifier it gives a marshalled key for re-associating batch results,
    and the ordering of a key schema's elements. */
module MapperKeys {
  import opened Wrappers
  import opened Text
  import opened Values
  import opened SchemaTypes
  import ItemIdentifier

  type AttributeMap = seq<(string, AttributeValue)>

  // ---------------------------------------------------------------------------
  // getKeyProperties

  /** The attribute names of the table key fields among `names`, in the order
      of `names`. */
  function KeyNames(schema: Schema, names: seq<string>): (r: seq<string>)
    ensures |r| <= |names|
    decreases |names|
  {
    if |names| == 0 then []
    else
      var rest := KeyNames(schema, names[..|names| - 1]);
      var property := names[|names| - 1];
      match Get(schema, property)
      case None => rest
      case Some(field) => if IsKey(field, None) then rest + [field.attributeName.GetOr(property)] else rest
  }

  /** `getKeyProperties`: the table key fields' attribute names, visiting the
      properties in sorted order. */
  function KeyPropertiesSpec(schema: Schema): seq<string>
  {
    KeyNames(schema, SortStrings(Keys(schema)))
  }

  method GetKeyProperties(schema: Schema) returns (keys: seq<string>)
    ensures keys == KeyPropertiesSpec(schema)
  {
    var properties := SortStrings(Keys(schema));
    keys := [];
    var i := 0;
    while i < |properties|
      invariant 0 <= i <= |properties|
      invariant keys == KeyNames(schema, properties[..i])
    {
      assert properties[..i + 1][..i] == properties[..i];
      var property := properties[i];
      var fieldSchema := Get(schema, property);
      if fieldSchema.Some? && IsKey(fieldSchema.value, None) {
        keys := keys + [fieldSchema.value.attributeName.GetOr(property)];
      }
      i := i + 1;
    }
    assert properties[..i] == properties;
  }

  /** A name is listed exactly when it is the attribute name of a table key
      field among `names`. */
  lemma {:induction false} KeyNamesMembers(schema: Schema, names: seq<string>, x: string)
    ensures x in KeyNames(schema, names) <==>
      exists i :: 0 <= i < |names| && Get(schema, names[i]).Some? && IsKey(Get(schema, names[i]).value, None)
                  && GetSchemaName(names[i], schema) == x
    decreases |names|
  {
    if |names| > 0 {
      var n := |names| - 1;
      var pre := names[..n];
      KeyNamesMembers(schema, pre, x);
      assert forall i :: 0 <= i < n ==> pre[i] == names[i];
    }
  }

  /** `KeyNames` reads the schema only through its lookups. */
  lemma {:induction false} KeyNamesSameLookups(a: Schema, b: Schema, names: seq<string>)
    requires forall k :: Get(a, k) == Get(b, k)
    ensures KeyNames(a, names) == KeyNames(b, names)
    decreases |names|
  {
    if |names| > 0 {
      KeyNamesSameLookups(a, b, names[..|names| - 1]);
    }
  }

  /** The key properties are the attribute names of exactly the schema's
      table key fields. */
  lemma KeyPropertiesMembers(schema: Schema, x: string)
    ensures x in KeyPropertiesSpec(schema) <==>
      exists k :: k in Keys(schema) && Get(schema, k).Some? && IsKey(Get(schema, k).value, None)
                  && GetSchemaName(k, schema) == x
  {
    var sorted := SortStrings(Keys(schema));
    SortStringsCorrect(Keys(schema));
    KeyNamesMembers(schema, sorted, x);
    assert forall k :: k in sorted <==> k in Keys(schema) by {
      forall k ensures k in sorted <==> k in Keys(schema) {
        assert k in sorted <==> k in multiset(sorted);
        assert k in Keys(schema) <==> k in multiset(Keys(schema));
      }
    }
    if x in KeyPropertiesSpec(schema) {
      var i :| 0 <= i < |sorted| && Get(schema, sorted[i]).Some? && IsKey(Get(schema, sorted[i]).value, None)
                && GetSchemaName(sorted[i], schema) == x;
      assert sorted[i] in sorted;
    }
    if exists k :: k in Keys(schema) && Get(schema, k).Some? && IsKey(Get(schema, k).value, None)
                   && GetSchemaName(k, schema) == x {
      var k :| k in Keys(schema) && Get(schema, k).Some? && IsKey(Get(schema, k).value, None)
               && GetSchemaName(k, schema) == x;
      assert k in sorted;
      var i :| 0 <= i < |sorted| && sorted[i] == k;
    }
  }

  /** Because the properties are sorted first, the key properties do not
      depend on the order in which the schema declares its fields. */
  lemma KeyPropertiesIgnoreDeclarationOrder(a: Schema, b: Schema)
    requires multiset(Keys(a)) == multiset(Keys(b))
    requires forall k :: Get(a, k) == Get(b, k)
    ensures KeyPropertiesSpec(a) == KeyPropertiesSpec(b)
  {
    SortIgnoresOrder(Keys(a), Keys(b));
    KeyNamesSameLookups(a, b, SortStrings(Keys(a)));
  }

  // ---------------------------------------------------------------------------
  // itemIdentifier (of the data mapper)

  /** What reading `.B` off a missing attribute throws. */
  const MissingKeyAttribute := "TypeError: Cannot read properties of undefined (reading 'B')"

  /** `${value.B ?? value.N ?? value.S}`: the first of the three an attribute
      carries, and `undefined` when it carries none of them. */
  function ValueText(a: AttributeValue): (t: string)
    ensures a.N? ==> t == a.num
    ensures a.S? ==> t == a.str
    ensures !(a.B? || a.N? || a.S?) ==> t == "undefined"
  {
    match a
    case B(b) => ItemIdentifier.BytesText(b)
    case N(n) => n
    case S(s) => s
    case _ => "undefined"
  }

  /** The `name=value` parts pushed for the key properties, in order; a key
      property missing from the marshalled map throws. */
  function IdentifierParts(marshalled: AttributeMap, keyProperties: seq<string>): (r: Result<seq<string>>)
    ensures r.Ok? ==> |r.value| == |keyProperties|
    decreases |keyProperties|
  {
    if |keyProperties| == 0 then Ok([])
    else
      match IdentifierParts(marshalled, keyProperties[..|keyProperties| - 1])
      case Err(e) => Err(e)
      case Ok(parts) =>
        var key := keyProperties[|keyProperties| - 1];
        match Get(marshalled, key)
        case None => Err(MissingKeyAttribute)
        case Some(value) => Ok(parts + [key + "=" + ValueText(value)])
  }

  /** `itemIdentifier(marshalled, keyProperties)`. */
  function MapperIdentifierSpec(marshalled: AttributeMap, keyProperties: seq<string>): Result<string>
  {
    match IdentifierParts(marshalled, keyProperties)
    case Err(e) => Err(e)
    case Ok(parts) => Ok(Join(parts, ":"))
  }

  method MapperItemIdentifier(marshalled: AttributeMap, keyProperties: seq<string>) returns (r: Result<string>)
    ensures r == MapperIdentifierSpec(marshalled, keyProperties)
  {
    var keyAttributes: seq<string> := [];
    var i := 0;
    while i < |keyProperties|
      invariant 0 <= i <= |keyProperties|
      invariant IdentifierParts(marshalled, keyProperties[..i]) == Ok(keyAttributes)
    {
      assert keyProperties[..i + 1][..i] == keyProperties[..i];
      var key := keyProperties[i];
      var value := Get(marshalled, key);
      if value.None? {
        IdentifierErrSticky(marshalled, keyProperties[..i + 1], keyProperties);
        return Err(MissingKeyAttribute);
      }
      keyAttributes := keyAttributes + [key + "=" + ValueText(value.value)];
      i := i + 1;
    }
    assert keyProperties[..i] == keyProperties;
    r := Ok(Join(keyAttributes, ":"));
  }

  lemma {:induction false} IdentifierErrSticky(marshalled: AttributeMap, pre: seq<string>, full: seq<string>)
    requires pre <= full
    requires IdentifierParts(marshalled, pre).Err?
    ensures IdentifierParts(marshalled, full) == IdentifierParts(marshalled, pre)
    decreases |full|
  {
    if |full| > |pre| {
      IdentifierErrSticky(marshalled, pre, full[..|full| - 1]);
    } else {
      assert pre == full;
    }
  }

  /** The identifier exists exactly when every key property is present, and
      its i-th part is that property's name and value. */
  lemma {:induction false} IdentifierPartsMeaning(marshalled: AttributeMap, keyProperties: seq<string>)
    ensures IdentifierParts(marshalled, keyProperties).Ok? <==> forall k :: k in keyProperties ==> k in Keys(marshalled)
    ensures IdentifierParts(marshalled, keyProperties).Ok? ==>
      forall i :: 0 <= i < |keyProperties| ==>
        IdentifierParts(marshalled, keyProperties).value[i]
          == keyProperties[i] + "=" + ValueText(Get(marshalled, keyProperties[i]).value)
  {
    IdentifierPartsDefined(marshalled, keyProperties);
    if IdentifierParts(marshalled, keyProperties).Ok? {
      IdentifierPartsValues(marshalled, keyProperties);
    }
  }

  lemma {:induction false} IdentifierPartsDefined(marshalled: AttributeMap, keyProperties: seq<string>)
    ensures IdentifierParts(marshalled, keyProperties).Ok? <==> forall k :: k in keyProperties ==> k in Keys(marshalled)
    decreases |keyProperties|
  {
    if |keyProperties| > 0 {
      var n := |keyProperties| - 1;
      var pre := keyProperties[..n];
      IdentifierPartsDefined(marshalled, pre);
      assert forall k :: k in keyProperties <==> k in pre || k == keyProperties[n];
    }
  }

  lemma {:induction false} IdentifierPartsValues(marshalled: AttributeMap, keyProperties: seq<string>)
    requires IdentifierParts(marshalled, keyProperties).Ok?
    ensures forall i :: 0 <= i < |keyProperties| ==>
      && Get(marshalled, keyProperties[i]).Some?
      && IdentifierParts(marshalled, keyProperties).value[i]
           == keyProperties[i] + "=" + ValueText(Get(marshalled, keyProperties[i]).value)
    decreases |keyProperties|
  {
    if |keyProperties| > 0 {
      var n := |keyProperties| - 1;
      var pre := keyProperties[..n];
      IdentifierPartsValues(marshalled, pre);
      var prev := IdentifierParts(marshalled, pre).value;
      var last := keyProperties[n] + "=" + ValueText(Get(marshalled, keyProperties[n]).value);
      assert IdentifierParts(marshalled, keyProperties).value == prev + [last];
      forall i | 0 <= i < n
        ensures pre[i] == keyProperties[i] && (prev + [last])[i] == prev[i]
      {
      }
    }
  }

  /** The identifier depends on the key attributes alone: a returned item
      that agrees with the submitted key on them maps to the same entry. */
  lemma {:induction false} IdentifierDependsOnKeysOnly(a: AttributeMap, b: AttributeMap, keyProperties: seq<string>)
    requires forall k :: k in keyProperties ==> Get(a, k) == Get(b, k)
    ensures MapperIdentifierSpec(a, keyProperties) == MapperIdentifierSpec(b, keyProperties)
  {
    PartsSameLookups(a, b, keyProperties);
  }

  lemma {:induction false} PartsSameLookups(a: AttributeMap, b: AttributeMap, keyProperties: seq<string>)
    requires forall k :: k in keyProperties ==> Get(a, k) == Get(b, k)
    ensures IdentifierParts(a, keyProperties) == IdentifierParts(b, keyProperties)
    decreases |keyProperties|
  {
    if |keyProperties| > 0 {
      var pre := keyProperties[..|keyProperties| - 1];
      assert forall k :: k in pre ==> k in keyProperties;
      PartsSameLookups(a, b, pre);
    }
  }

  // ---------------------------------------------------------------------------
  // keyTypesToElementList

  datatype KeySchemaElement = KeySchemaElement(attributeName: string, keyType: KeyType)

  /** The elements of a key type map, in property order. */
  function Elements(keys: seq<(string, KeyType)>): (r: seq<KeySchemaElement>)
    ensures |r| == |keys|
    ensures forall i :: 0 <= i < |keys| ==> r[i] == KeySchemaElement(keys[i].0, keys[i].1)
  {
    seq(|keys|, i requires 0 <= i < |keys| => KeySchemaElement(keys[i].0, keys[i].1))
  }

  /** The elements of one key type, in their original order. */
  function OfType(elements: seq<KeySchemaElement>, t: KeyType): (r: seq<KeySchemaElement>)
    ensures AllOfType(r, t)
    decreases |elements|
  {
    if |elements| == 0 then []
    else
      var rest := OfType(elements[..|elements| - 1], t);
      if elements[|elements| - 1].keyType == t then rest + [elements[|elements| - 1]] else rest
  }

  /** No element of another key type comes before a HASH element. */
  predicate HashFirst(elements: seq<KeySchemaElement>)
  {
    forall i, j :: 0 <= i < j < |elements| && elements[j].keyType == HASH ==> elements[i].keyType == HASH
  }

  /** `keyTypesToElementList`: the elements sorted with a comparator that puts
      HASH before any other type and calls everything else equal; the sort is
      stable, so each key type keeps its original order. */
  function KeyTypesToElementList(keys: seq<(string, KeyType)>): (r: seq<KeySchemaElement>)
  {
    OfType(Elements(keys), HASH) + OfType(Elements(keys), RANGE)
  }

  lemma {:induction false} OfTypeMultiset(elements: seq<KeySchemaElement>)
    ensures multiset(OfType(elements, HASH)) + multiset(OfType(elements, RANGE)) == multiset(elements)
    decreases |elements|
  {
    if |elements| > 0 {
      var pre := elements[..|elements| - 1];
      OfTypeMultiset(pre);
      assert elements == pre + [elements[|elements| - 1]];
    }
  }

  /** Every element has key type `t`. */
  predicate AllOfType(elements: seq<KeySchemaElement>, t: KeyType)
  {
    forall i :: 0 <= i < |elements| ==> elements[i].keyType == t
  }

  lemma {:induction false} OfTypeOfUniform(elements: seq<KeySchemaElement>, t: KeyType, u: KeyType)
    requires AllOfType(elements, t)
    ensures OfType(elements, u) == if t == u then elements else []
    decreases |elements|
  {
    if |elements| > 0 {
      var n := |elements| - 1;
      var pre := elements[..n];
      var x := elements[n];
      assert AllOfType(pre, t) by {
        forall i | 0 <= i < n ensures pre[i].keyType == t {
          assert pre[i] == elements[i];
        }
      }
      OfTypeOfUniform(pre, t, u);
      assert elements == pre + [x];
    }
  }

  lemma {:induction false} OfTypeAppend(a: seq<KeySchemaElement>, b: seq<KeySchemaElement>, t: KeyType)
    ensures OfType(a + b, t) == OfType(a, t) + OfType(b, t)
    decreases |b|
  {
    if |b| == 0 {
      assert a + b == a;
    } else {
      var pre := b[..|b| - 1];
      OfTypeAppend(a, pre, t);
      assert (a + b)[..|a + b| - 1] == a + pre;
    }
  }

  /** The element list holds the same elements, HASH first, and each key type
      in its original order. */
  lemma KeyTypesToElementListSorted(keys: seq<(string, KeyType)>)
    ensures var r := KeyTypesToElementList(keys);
      && multiset(r) == multiset(Elements(keys))
      && HashFirst(r)
      && OfType(r, HASH) == OfType(Elements(keys), HASH)
      && OfType(r, RANGE) == OfType(Elements(keys), RANGE)
  {
    var es := Elements(keys);
    var hs := OfType(es, HASH);
    var rs := OfType(es, RANGE);
    OfTypeMultiset(es);
    OfTypeAppend(hs, rs, HASH);
    OfTypeAppend(hs, rs, RANGE);
    assert AllOfType(hs, HASH) && AllOfType(rs, RANGE);
    OfTypeOfUniform(hs, HASH, HASH);
    OfTypeOfUniform(hs, HASH, RANGE);
    OfTypeOfUniform(rs, RANGE, HASH);
    OfTypeOfUniform(rs, RANGE, RANGE);
    var r := hs + rs;
    forall k | |hs| <= k < |r|
      ensures r[k].keyType == RANGE
    {
      assert r[k] == rs[k - |hs|];
    }
    forall i, j | 0 <= i < j < |r| && r[j].keyType == HASH
      ensures r[i].keyType == HASH
    {
      assert r[i] == hs[i];
    }
  }

  /** Any arrangement with the properties above is this one: what a stable
      sort under the comparator returns is uniquely determined. */
  lemma {:induction false} HashFirstUnique(keys: seq<(string, KeyType)>, other: seq<KeySchemaElement>)
    requires HashFirst(other)
    requires OfType(other, HASH) == OfType(Elements(keys), HASH)
    requires OfType(other, RANGE) == OfType(Elements(keys), RANGE)
    ensures other == KeyTypesToElementList(keys)
  {
    var h := LeadingHashes(other);
    assert AllOfType(other[..h], HASH);
    TrailingRanges(other, h);
    SplitAt(other, h);
  }

  /** A sequence that is HASH up to `h` and RANGE from there on splits at `h`. */
  lemma SplitAt(other: seq<KeySchemaElement>, h: nat)
    requires h <= |other| && AllOfType(other[..h], HASH) && AllOfType(other[h..], RANGE)
    ensures OfType(other, HASH) == other[..h] && OfType(other, RANGE) == other[h..]
    ensures OfType(other, HASH) + OfType(other, RANGE) == other
  {
    assert other == other[..h] + other[h..];
    UniformSplit(other[..h], other[h..]);
  }

  /** In a HASH-first arrangement, everything after the leading HASH
      elements is RANGE. */
  lemma TrailingRanges(other: seq<KeySchemaElement>, h: nat)
    requires HashFirst(other) && h <= |other|
    requires h < |other| ==> other[h].keyType != HASH
    ensures AllOfType(other[h..], RANGE)
  {
    var back := other[h..];
    forall i | 0 <= i < |back|
      ensures back[i].keyType == RANGE
    {
      assert back[i] == other[h + i];
    }
  }

  /** A run of HASH elements followed by a run of RANGE elements splits back
      into the two runs. */
  lemma UniformSplit(front: seq<KeySchemaElement>, back: seq<KeySchemaElement>)
    requires AllOfType(front, HASH) && AllOfType(back, RANGE)
    ensures OfType(front + back, HASH) == front
    ensures OfType(front + back, RANGE) == back
  {
    OfTypeAppend(front, back, HASH);
    OfTypeAppend(front, back, RANGE);
    OfTypeOfUniform(front, HASH, HASH);
    OfTypeOfUniform(front, HASH, RANGE);
    OfTypeOfUniform(back, RANGE, HASH);
    OfTypeOfUniform(back, RANGE, RANGE);
  }

  /** The number of HASH elements at the front. */
  function LeadingHashes(elements: seq<KeySchemaElement>): (h: nat)
    ensures h <= |elements|
    ensures forall i :: 0 <= i < h ==> elements[i].keyType == HASH
    ensures h < |elements| ==> elements[h].keyType != HASH
    decreases |elements|
  {
    if |elements| == 0 || elements[0].keyType != HASH then 0
    else
      var h := LeadingHashes(elements[1..]);
      assert forall i :: 1 <= i < h + 1 ==> elements[i] == elements[1..][i - 1];
      h + 1
  }
}
