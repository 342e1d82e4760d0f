/** Schemas of the data marshaller: the typed description of how each property
    of a record is stored, and the helpers that read key information and
    attribute names off a schema. */
module SchemaTypes {
  import opened Wrappers
  import opened Values
  import opened AttributePath
  import AutoMarshaller

  const UntypedCustomField := "Invalid schema: no attribute type defined for custom field"

  /** The member types a Set node may name. */
  const BinaryMember := "Binary"
  const NumberMember := "Number"
  const StringMember := "String"

  /** What a Set node naming any other member type throws. */
  function UnrecognizedMemberType(memberType: string): string
  {
    "Unrecognized set member type: " + memberType
  }

  datatype KeyType = HASH | RANGE

  /** The scalar attribute types a key may have: 'S', 'N' or 'B'. */
  datatype ScalarAttributeType = ScalarS | ScalarN | ScalarB

  /** The key configuration of a keyable node: the table key type and the key
      type per secondary index (an absent configuration is the empty list). */
  datatype KeyConfig = KeyConfig(keyType: Option<KeyType>, indexKeyConfigurations: seq<(string, KeyType)>)

  /** The marshalling options an Any, Collection or Hash node may set; unset
      options take the codec's defaults. */
  datatype MarshallingOptions = MarshallingOptions(
    onEmpty: Option<AutoMarshaller.EmptyStrategy>,
    onInvalid: Option<AutoMarshaller.InvalidStrategy>,
    unwrapNumbers: Option<bool>)

  /** A schema node: the attribute name it is stored under (the property name
      when absent), the value its default provider yields, and its type. */
  datatype SchemaType = SchemaType(attributeName: Option<string>, defaultProvider: Option<JsValue>, node: Node)

  /** The node types. A Set's member type is kept as written ('String',
      'Number', 'Binary' or anything else); `UnrecognizedType` is a node whose
      `type` is none of the tags the codec knows. */
  datatype Node =
    | AnyType(options: MarshallingOptions)
    | BinaryType(keys: KeyConfig)
    | BooleanType
    | CollectionType(options: MarshallingOptions)
    | CustomType(keys: KeyConfig, attributeType: Option<ScalarAttributeType>,
                 marshall: JsValue -> AttributeValue, unmarshall: Option<AttributeValue> -> JsValue)
    | DateType(keys: KeyConfig)
    | DocumentType(members: seq<(string, SchemaType)>)
    | HashType(options: MarshallingOptions)
    | ListType(memberType: SchemaType)
    | MapType(memberType: SchemaType)
    | NullType
    | NumberType(keys: KeyConfig, versionAttribute: bool)
    | SetType(setMemberType: string)
    | StringType(keys: KeyConfig)
    | TupleType(tupleMembers: seq<SchemaType>)
    | UnrecognizedType(tag: string)

  /** A schema: property names to nodes, in declaration order. */
  type Schema = seq<(string, SchemaType)>

  function Plain(node: Node): SchemaType
  {
    SchemaType(None, None, node)
  }

  /** The types that may hold a key. */
  predicate Keyable(n: Node)
  {
    n.BinaryType? || n.CustomType? || n.DateType? || n.NumberType? || n.StringType?
  }

  // ---------------------------------------------------------------------------
  // getSchemaName and toSchemaName

  /** `getSchemaName`: the attribute name a property is stored under. */
  function GetSchemaName(propertyName: string, schema: Schema): (r: string)
    ensures Get(schema, propertyName).None? ==> r == propertyName
    ensures Get(schema, propertyName).Some? && Get(schema, propertyName).value.attributeName.Some? ==>
              r == Get(schema, propertyName).value.attributeName.value
    ensures Get(schema, propertyName).Some? && Get(schema, propertyName).value.attributeName.None? ==>
              r == propertyName
  {
    match Get(schema, propertyName)
    case None => propertyName
    case Some(field) => field.attributeName.GetOr(propertyName)
  }

  /** The attribute name of the property at position `i` of a schema. */
  function NameAt(schema: Schema, i: int): string
    requires 0 <= i < |schema|
  {
    schema[i].1.attributeName.GetOr(schema[i].0)
  }

  /** The document node a whole schema describes: the cursor `toSchemaName` starts from. */
  function Root(schema: Schema): SchemaType
  {
    Plain(DocumentType(schema))
  }

  /** The renaming `toSchemaName` performs from `cursor` on: names are
      rewritten while the cursor is a document, list indices descend into a
      list's member type, and at the first element the schema does not
      describe the rest is passed through. */
  function Rename(elements: seq<PathElement>, cursor: Option<SchemaType>): seq<PathElement>
    decreases |elements|
  {
    if |elements| == 0 then []
    else if elements[0].AttributeName? && cursor.Some? && cursor.value.node.DocumentType? then
      var members := cursor.value.node.members;
      [AttributeName(GetSchemaName(elements[0].name, members))] + Rename(elements[1..], Get(members, elements[0].name))
    else if elements[0].ListIndex? && cursor.Some? && cursor.value.node.ListType? then
      [elements[0]] + Rename(elements[1..], Some(cursor.value.node.memberType))
    else elements
  }

  lemma RenameName(es: seq<PathElement>, cursor: Option<SchemaType>)
    requires |es| > 0 && es[0].AttributeName? && cursor.Some? && cursor.value.node.DocumentType?
    ensures Rename(es, cursor)
         == [AttributeName(GetSchemaName(es[0].name, cursor.value.node.members))]
            + Rename(es[1..], Get(cursor.value.node.members, es[0].name))
  {
  }

  lemma RenameIndex(es: seq<PathElement>, cursor: Option<SchemaType>)
    requires |es| > 0 && es[0].ListIndex? && cursor.Some? && cursor.value.node.ListType?
    ensures Rename(es, cursor) == [es[0]] + Rename(es[1..], Some(cursor.value.node.memberType))
  {
  }

  lemma RenameStop(es: seq<PathElement>, cursor: Option<SchemaType>)
    requires |es| > 0
    requires !(es[0].AttributeName? && cursor.Some? && cursor.value.node.DocumentType?)
    requires !(es[0].ListIndex? && cursor.Some? && cursor.value.node.ListType?)
    ensures Rename(es, cursor) == es
  {
  }

  /** Writing `x` at position `i` extends the rewritten prefix by `x`. */
  lemma WriteStep<T>(elements: seq<T>, i: int, x: T, rest: seq<T>)
    requires 0 <= i < |elements|
    ensures elements[i := x][..i + 1] + rest == elements[..i] + ([x] + rest)
    ensures elements[i := x][i + 1..] == elements[i + 1..]
  {
    assert elements[i := x][..i + 1] == elements[..i] + [x];
  }

  lemma SuffixHead<T>(s: seq<T>, i: int)
    requires 0 <= i < |s|
    ensures s[i..][0] == s[i] && s[i..][1..] == s[i + 1..]
  {
  }

  lemma SplitAtIndex<T>(s: seq<T>, i: int)
    requires 0 <= i <= |s|
    ensures s[..i] + s[i..] == s
  {
  }

  /** `toSchemaName` on a path: the copied elements are rewritten in place. */
  method ToSchemaName(path: AttributePath, schema: Schema) returns (r: AttributePath)
    ensures r.elements == Rename(path.elements, Some(Root(schema)))
  {
    var elements := path.elements;
    var start := Some(Root(schema));
    var cursor := start;
    var i := 0;
    while i < |elements|
      invariant 0 <= i <= |elements| == |path.elements|
      invariant elements[i..] == path.elements[i..]
      invariant Rename(path.elements, start) == elements[..i] + Rename(path.elements[i..], cursor)
    {
      var element := elements[i];
      SuffixHead(path.elements, i);
      SuffixHead(elements, i);
      if element.AttributeName? && cursor.Some? && cursor.value.node.DocumentType? {
        var members := cursor.value.node.members;
        RenameName(path.elements[i..], cursor);
        var renamed := AttributeName(GetSchemaName(element.name, members));
        WriteStep(elements, i, renamed, Rename(path.elements[i + 1..], Get(members, element.name)));
        elements := elements[i := renamed];
        cursor := Get(members, element.name);
      } else if element.ListIndex? && cursor.Some? && cursor.value.node.ListType? {
        RenameIndex(path.elements[i..], cursor);
        WriteStep(elements, i, element, Rename(path.elements[i + 1..], Some(cursor.value.node.memberType)));
        assert elements[i := element] == elements;
        cursor := Some(cursor.value.node.memberType);
      } else {
        RenameStop(path.elements[i..], cursor);
        break;
      }
      i := i + 1;
    }
    SplitAtIndex(elements, i);
    r := FromElements(elements);
  }

  /** `toSchemaName` on a string: the string is parsed first, and a malformed
      path throws the parser's error. */
  method ToSchemaNameString(path: string, schema: Schema) returns (r: Result<AttributePath>)
    ensures r.Ok? <==> ParsePathSpec(path).Ok?
    ensures r.Ok? ==> r.value.elements == Rename(ParsePathSpec(path).value, Some(Root(schema)))
    ensures r.Err? ==> r.error == ParsePathSpec(path).error
  {
    var parsed := FromString(path);
    match parsed
    case Err(e) => r := Err(e);
    case Ok(p) =>
      var renamed := ToSchemaName(p, schema);
      r := Ok(renamed);
  }

  /** Renaming keeps the number and kinds of elements and every list index. */
  lemma {:induction false} RenameShape(elements: seq<PathElement>, cursor: Option<SchemaType>)
    ensures |Rename(elements, cursor)| == |elements|
    ensures forall i :: 0 <= i < |elements| ==>
              Rename(elements, cursor)[i].ListIndex? == elements[i].ListIndex?
    ensures forall i :: 0 <= i < |elements| && elements[i].ListIndex? ==> Rename(elements, cursor)[i] == elements[i]
    decreases |elements|
  {
    if |elements| > 0 {
      if elements[0].AttributeName? && cursor.Some? && cursor.value.node.DocumentType? {
        RenameShape(elements[1..], Get(cursor.value.node.members, elements[0].name));
      } else if elements[0].ListIndex? && cursor.Some? && cursor.value.node.ListType? {
        RenameShape(elements[1..], Some(cursor.value.node.memberType));
      }
    }
  }

  /** A first property the schema does not declare leaves the whole path unchanged. */
  lemma UnknownPropertyUnchanged(schema: Schema, name: string, rest: seq<PathElement>)
    requires Get(schema, name).None?
    ensures Rename([AttributeName(name)] + rest, Some(Root(schema))) == [AttributeName(name)] + rest
  {
    var elements := [AttributeName(name)] + rest;
    assert elements[1..] == rest;
    if |rest| > 0 {
      assert Rename(rest, None) == rest;
    }
  }

  /** Under a node that is not a document or a list (a Hash, say) only the
      property itself is renamed; everything below it passes through. */
  lemma TerminalNodeStops(schema: Schema, name: string, rest: seq<PathElement>)
    requires Get(schema, name).Some?
    requires !Get(schema, name).value.node.DocumentType? && !Get(schema, name).value.node.ListType?
    ensures Rename([AttributeName(name)] + rest, Some(Root(schema))) ==
              [AttributeName(GetSchemaName(name, schema))] + rest
  {
    var elements := [AttributeName(name)] + rest;
    assert elements[1..] == rest;
    if |rest| > 0 {
      assert Rename(rest, Get(schema, name)) == rest;
    }
  }

  /** The schema of the nested example, bottom up. */
  function NestedInner(): SchemaType
  {
    Plain(DocumentType([("nameToReplace", SchemaType(Some("replacementName"), None, StringType(KeyConfig(None, []))))]))
  }

  function NestedItchy(): SchemaType
  {
    SchemaType(Some("scratchy"), None, ListType(Plain(ListType(NestedInner()))))
  }

  function NestedMember(): SchemaType
  {
    Plain(DocumentType([("tom", SchemaType(Some("jerry"), None, StringType(KeyConfig(None, [])))),
                        ("itchy", NestedItchy())]))
  }

  function NestedSchema(): Schema
  {
    [("unchanged", Plain(StringType(KeyConfig(None, [])))),
     ("bar", SchemaType(Some("topLevelBar"), None, ListType(NestedMember())))]
  }

  lemma NestedInnerStep()
    ensures Rename([AttributeName("nameToReplace")], Some(NestedInner())) == [AttributeName("replacementName")]
  {
    var es := [AttributeName("nameToReplace")];
    assert Get(NestedInner().node.members, "nameToReplace") == Some(NestedInner().node.members[0].1);
    RenameName(es, Some(NestedInner()));
    assert es[1..] == [];
  }

  lemma NestedItchyStep()
    ensures Rename([ListIndex(23), ListIndex(2), AttributeName("nameToReplace")], Some(NestedItchy()))
         == [ListIndex(23), ListIndex(2), AttributeName("replacementName")]
  {
    var es := [ListIndex(23), ListIndex(2), AttributeName("nameToReplace")];
    RenameIndex(es, Some(NestedItchy()));
    assert es[1..] == [ListIndex(2), AttributeName("nameToReplace")];
    RenameIndex(es[1..], Some(Plain(ListType(NestedInner()))));
    assert es[1..][1..] == [AttributeName("nameToReplace")];
    NestedInnerStep();
  }

  lemma NestedMemberStep()
    ensures Rename([AttributeName("itchy"), ListIndex(23), ListIndex(2), AttributeName("nameToReplace")], Some(NestedMember()))
         == [AttributeName("scratchy"), ListIndex(23), ListIndex(2), AttributeName("replacementName")]
  {
    var es := [AttributeName("itchy"), ListIndex(23), ListIndex(2), AttributeName("nameToReplace")];
    assert Get(NestedMember().node.members, "itchy") == Some(NestedItchy());
    RenameName(es, Some(NestedMember()));
    assert es[1..] == [ListIndex(23), ListIndex(2), AttributeName("nameToReplace")];
    NestedItchyStep();
  }

  /** The nested example: `bar[1].itchy[23][2].nameToReplace` becomes
      `topLevelBar[1].scratchy[23][2].replacementName`. */
  lemma NestedRenameExample()
    ensures Rename([AttributeName("bar"), ListIndex(1), AttributeName("itchy"), ListIndex(23), ListIndex(2),
                    AttributeName("nameToReplace")], Some(Root(NestedSchema())))
         == [AttributeName("topLevelBar"), ListIndex(1), AttributeName("scratchy"), ListIndex(23), ListIndex(2),
             AttributeName("replacementName")]
  {
    var es := [AttributeName("bar"), ListIndex(1), AttributeName("itchy"), ListIndex(23), ListIndex(2),
               AttributeName("nameToReplace")];
    var bar := NestedSchema()[1].1;
    assert Get(NestedSchema(), "bar") == Some(bar);
    RenameName(es, Some(Root(NestedSchema())));
    assert es[1..] == [ListIndex(1)] + es[2..];
    RenameIndex(es[1..], Some(bar));
    assert es[2..] == [AttributeName("itchy"), ListIndex(23), ListIndex(2), AttributeName("nameToReplace")];
    NestedMemberStep();
  }


  // ---------------------------------------------------------------------------
  // isKey and attributeType

  /** An index name is given when it is a non-empty string. */
  predicate IndexGiven(indexName: Option<string>)
  {
    indexName.Some? && indexName.value != ""
  }

  /** `isKey`: whether a field is a key of the table, or of the named index. */
  function IsKey(field: SchemaType, indexName: Option<string>): (r: bool)
  {
    Keyable(field.node) &&
    if IndexGiven(indexName) then indexName.value in Keys(field.node.keys.indexKeyConfigurations)
    else field.node.keys.keyType.Some?
  }

  /** `attributeType`: the scalar type of a keyable field; a custom field must declare one. */
  function AttributeType(field: SchemaType): (r: Result<ScalarAttributeType>)
    requires Keyable(field.node)
    ensures r.Err? <==> field.node.CustomType? && field.node.attributeType.None?
    ensures r.Err? ==> r.error == UntypedCustomField
    ensures field.node.BinaryType? ==> r == Ok(ScalarB)
    ensures field.node.DateType? || field.node.NumberType? ==> r == Ok(ScalarN)
    ensures field.node.StringType? ==> r == Ok(ScalarS)
    ensures field.node.CustomType? && field.node.attributeType.Some? ==> r == Ok(field.node.attributeType.value)
  {
    match field.node
    case BinaryType(_) => Ok(ScalarB)
    case CustomType(_, t, _, _) =>
      if t.None? then Err(UntypedCustomField) else Ok(t.value)
    case DateType(_) => Ok(ScalarN)
    case NumberType(_, _) => Ok(ScalarN)
    case StringType(_) => Ok(ScalarS)
  }

  /** Only keyable types can be keys, whatever their configuration. */
  lemma NonKeyableNeverKey(field: SchemaType, indexName: Option<string>)
    requires !Keyable(field.node)
    ensures !IsKey(field, indexName)
  {
  }

  /** For an index, only the index configuration counts and the table key
      type is ignored; without one, only the table key type counts. */
  lemma IsKeyDependsOnlyOnItsConfiguration(field: SchemaType, other: SchemaType, indexName: Option<string>)
    requires Keyable(field.node) && Keyable(other.node)
    requires IndexGiven(indexName) ==> field.node.keys.indexKeyConfigurations == other.node.keys.indexKeyConfigurations
    requires !IndexGiven(indexName) ==> field.node.keys.keyType == other.node.keys.keyType
    ensures IsKey(field, indexName) == IsKey(other, indexName)
  {
  }

  /** A table key that is also configured for an index is a key for that index. */
  lemma TableAndIndexKey(kt: KeyType, indexName: string, it: KeyType)
    requires indexName != ""
    ensures var field := Plain(StringType(KeyConfig(Some(kt), [(indexName, it)])));
            IsKey(field, None) && IsKey(field, Some(indexName)) && !IsKey(field, Some(indexName + "x"))
  {
    var field := Plain(StringType(KeyConfig(Some(kt), [(indexName, it)])));
    assert Keys(field.node.keys.indexKeyConfigurations) == [indexName];
    assert |indexName + "x"| != |indexName|;
  }
}
