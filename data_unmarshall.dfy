/** The schema-driven codec, decoding half: `unmarshallItem`, `unmarshallValue`
    and the list, map, tuple and set helpers. An attribute of the wrong shape
    for its node decodes to `undefined`. */
module DataUnmarshall {
  import opened Wrappers
  import opened Text
  import opened Values
  import opened BinarySets
  import opened SchemaTypes
  import AutoMarshaller
  import DataMarshall
  import opened Folds

  /** The options of an Any, Collection or Hash node when unmarshalling: unset
      options default to `leave`, `throw` and `false`. */
  function UnmarshallOptions(opts: MarshallingOptions): (o: AutoMarshaller.Options)
    ensures opts.onEmpty.None? ==> o.onEmpty == AutoMarshaller.Leave
    ensures opts.onInvalid.None? ==> o.onInvalid == AutoMarshaller.Throw
    ensures opts.unwrapNumbers.None? ==> !o.unwrapNumbers
  {
    AutoMarshaller.NewMarshaller(opts.onEmpty, opts.onInvalid, opts.unwrapNumbers)
  }

  /** `new Date(Number(text) * 1000)`. */
  function DateOfSeconds(text: string): (d: JsValue)
    ensures d.Date? || d.InvalidDate?
  {
    match NumberOf(text)
    case Num(i) => DataMarshall.DateAt(i * 1000)
    case _ => InvalidDate
  }

  /** The members of an unmarshalled number set, duplicates dropped. */
  function NumberSetSpec(ns: seq<string>): seq<JsValue>
  {
    AutoMarshaller.SetOf(seq(|ns|, i requires 0 <= i < |ns| => NumberOf(ns[i])))
  }

  /** The members of an unmarshalled string set, duplicates dropped. */
  function StringSetSpec(ss: seq<string>): seq<JsValue>
  {
    AutoMarshaller.SetOf(seq(|ss|, i requires 0 <= i < |ss| => Str(ss[i])))
  }

  // ---------------------------------------------------------------------------
  // unmarshallValue

  /** `unmarshallValue(schemaType, input)`. */
  function UnmarshallValue(t: SchemaType, a: AttributeValue): (r: Result<JsValue>)
    decreases t, 1
  {
    match t.node
    case AnyType(opts) => AutoMarshaller.UnmarshallValue(UnmarshallOptions(opts), a)
    case CollectionType(opts) => AutoMarshaller.UnmarshallValue(UnmarshallOptions(opts), a)
    case HashType(opts) => AutoMarshaller.UnmarshallValue(UnmarshallOptions(opts), a)
    case BinaryType(_) => Ok(if a == NULL(true) then Binary([]) else if a.B? then Binary(a.bin) else Undefined)
    case BooleanType => Ok(if a.BOOL? then Bool(a.flag) else Undefined)
    case CustomType(_, _, _, unmarshall) => Ok(unmarshall(Some(a)))
    case DateType(_) => Ok(if a.N? && a.num != "" then DateOfSeconds(a.num) else Undefined)
    case DocumentType(members) =>
      if a.M? then
        match ItemFold(t, members, a.entries) case Err(e) => Err(e) case Ok(ps) => Ok(Object(ps))
      else Ok(Undefined)
    case ListType(_) =>
      if a.L? then
        match ListFold(t, a.list) case Err(e) => Err(e) case Ok(xs) => Ok(Array(xs))
      else Ok(Undefined)
    case MapType(_) =>
      if a.M? then
        match MapFold(t, a.entries) case Err(e) => Err(e) case Ok(es) => Ok(JsMap(es))
      else Ok(Undefined)
    case NullType => Ok(if a == NULL(true) then Null else Undefined)
    case NumberType(_, _) => Ok(if a.N? then NumberOf(a.num) else Undefined)
    case SetType(memberType) =>
      if memberType == BinaryMember then
        Ok(if a == NULL(true) then BinSet([]) else if a.BS? then BinSet(BinarySetOf(a.bins)) else Undefined)
      else if memberType == NumberMember then
        Ok(if a == NULL(true) then JsSet([]) else if a.NS? then JsSet(NumberSetSpec(a.nums)) else Undefined)
      else if memberType == StringMember then
        Ok(if a == NULL(true) then JsSet([]) else if a.SS? then JsSet(StringSetSpec(a.strs)) else Undefined)
      else Err(UnrecognizedMemberType(memberType))
    case StringType(_) => Ok(if a == NULL(true) then Str("") else if a.S? then Str(a.str) else Undefined)
    case TupleType(members) =>
      if a.L? then
        match TupleFold(t, members, a.list) case Err(e) => Err(e) case Ok(xs) => Ok(Array(xs))
      else Ok(Undefined)
    case UnrecognizedType(_) => Err(DataMarshall.UnrecognizedNode)
  }

  /** `unmarshallValue(member, undefined)`, reached when a tuple attribute has
      fewer elements than the tuple has members: a Custom node hands `undefined`
      to its own unmarshaller; every other node reads a tag off `undefined` and
      throws, unless the node is rejected first. */
  function UnmarshallMissing(t: SchemaType): (r: Result<JsValue>)
    ensures r.Ok? <==> t.node.CustomType?
    ensures t.node.CustomType? ==> r.value == t.node.unmarshall(None)
  {
    match t.node
    case CustomType(_, _, _, unmarshall) => Ok(unmarshall(None))
    case SetType(memberType) =>
      if memberType == BinaryMember || memberType == NumberMember || memberType == StringMember then Err(DataMarshall.ReadError(Undefined))
      else Err(UnrecognizedMemberType(memberType))
    case UnrecognizedType(_) => Err(DataMarshall.UnrecognizedNode)
    case _ => Err(DataMarshall.ReadError(Undefined))
  }

  /** `unmarshallItem`'s loop: each schema property whose attribute name the
      input holds is decoded and set under the property name. */
  function ItemFold(ghost parent: SchemaType, schema: Schema, input: seq<(string, AttributeValue)>)
    : (r: Result<seq<(string, JsValue)>>)
    requires parent.node.DocumentType? && schema <= parent.node.members
    decreases parent, 0, |schema|
  {
    if |schema| == 0 then Ok([])
    else
      match ItemFold(parent, schema[..|schema| - 1], input)
      case Err(e) => Err(e)
      case Ok(obj) =>
        var (key, field) := schema[|schema| - 1];
        var attributeName := field.attributeName.GetOr(key);
        match Get(input, attributeName)
        case None => Ok(obj)
        case Some(a) =>
          match UnmarshallValue(field, a)
          case Err(e) => Err(e)
          case Ok(x) => Ok(Put(obj, key, x))
  }

  /** `unmarshallItem(schema, input)`. */
  function UnmarshallItemSpec(schema: Schema, input: seq<(string, AttributeValue)>): Result<seq<(string, JsValue)>>
  {
    ItemFold(Root(schema), schema, input)
  }

  /** `unmarshallList`: every element decoded with `memberType`, in order. */
  function ListFold(t: SchemaType, list: seq<AttributeValue>): (r: Result<seq<JsValue>>)
    requires t.node.ListType?
    ensures r.Ok? ==> |r.value| == |list|
    decreases t, 0, |list|
  {
    if |list| == 0 then Ok([])
    else
      match ListFold(t, list[..|list| - 1])
      case Err(e) => Err(e)
      case Ok(xs) =>
        match UnmarshallValue(t.node.memberType, list[|list| - 1])
        case Err(e) => Err(e)
        case Ok(x) => Ok(xs + [x])
  }

  /** `unmarshallMap`: a `Map` from each attribute name to its decoded value. */
  function MapFold(t: SchemaType, entries: seq<(string, AttributeValue)>): (r: Result<seq<(JsValue, JsValue)>>)
    requires t.node.MapType?
    ensures r.Ok? ==> |r.value| == |entries|
    ensures r.Ok? ==> forall i :: 0 <= i < |entries| ==> r.value[i].0 == Str(entries[i].0)
    decreases t, 0, |entries|
  {
    if |entries| == 0 then Ok([])
    else
      match MapFold(t, entries[..|entries| - 1])
      case Err(e) => Err(e)
      case Ok(es) =>
        match UnmarshallValue(t.node.memberType, entries[|entries| - 1].1)
        case Err(e) => Err(e)
        case Ok(x) => Ok(es + [(Str(entries[|entries| - 1].0), x)])
  }

  /** `unmarshallTuple`: member `i` decodes `input[i]`. */
  function TupleFold(t: SchemaType, members: seq<SchemaType>, list: seq<AttributeValue>)
    : (r: Result<seq<JsValue>>)
    requires t.node.TupleType? && members <= t.node.tupleMembers
    ensures r.Ok? ==> |r.value| == |members|
    decreases t, 0, |members|
  {
    if |members| == 0 then Ok([])
    else
      match TupleFold(t, members[..|members| - 1], list)
      case Err(e) => Err(e)
      case Ok(xs) =>
        var i := |members| - 1;
        match if i < |list| then UnmarshallValue(members[i], list[i]) else UnmarshallMissing(members[i])
        case Err(e) => Err(e)
        case Ok(x) => Ok(xs + [x])
  }

  // ---------------------------------------------------------------------------
  // The loops

  method UnmarshallItem(schema: Schema, input: seq<(string, AttributeValue)>) returns (r: Result<seq<(string, JsValue)>>)
    ensures r == UnmarshallItemSpec(schema, input)
  {
    var unmarshalled: seq<(string, JsValue)> := [];
    var i := 0;
    while i < |schema|
      invariant 0 <= i <= |schema|
      invariant ItemFold(Root(schema), schema[..i], input) == Ok(unmarshalled)
    {
      assert schema[..i + 1][..i] == schema[..i];
      var (key, field) := schema[i];
      var attributeName := field.attributeName.GetOr(key);
      var present := Get(input, attributeName);
      if present.Some? {
        var value := UnmarshallValue(field, present.value);
        if value.Err? {
          ItemErrSticky(Root(schema), schema[..i + 1], schema, input);
          return Err(value.error);
        }
        unmarshalled := Put(unmarshalled, key, value.value);
      }
      i := i + 1;
    }
    assert schema[..i] == schema;
    r := Ok(unmarshalled);
  }

  method UnmarshallList(t: SchemaType, input: seq<AttributeValue>) returns (r: Result<seq<JsValue>>)
    requires t.node.ListType?
    ensures r == ListFold(t, input)
  {
    var list: seq<JsValue> := [];
    var i := 0;
    while i < |input|
      invariant 0 <= i <= |input|
      invariant ListFold(t, input[..i]) == Ok(list)
    {
      assert input[..i + 1][..i] == input[..i];
      var element := UnmarshallValue(t.node.memberType, input[i]);
      if element.Err? {
        ListErrSticky(t, input[..i + 1], input);
        return Err(element.error);
      }
      list := list + [element.value];
      i := i + 1;
    }
    assert input[..i] == input;
    r := Ok(list);
  }

  method UnmarshallMap(t: SchemaType, input: seq<(string, AttributeValue)>) returns (r: Result<seq<(JsValue, JsValue)>>)
    requires t.node.MapType?
    ensures r == MapFold(t, input)
  {
    var entries: seq<(JsValue, JsValue)> := [];
    var i := 0;
    while i < |input|
      invariant 0 <= i <= |input|
      invariant MapFold(t, input[..i]) == Ok(entries)
    {
      assert input[..i + 1][..i] == input[..i];
      var value := UnmarshallValue(t.node.memberType, input[i].1);
      if value.Err? {
        MapErrSticky(t, input[..i + 1], input);
        return Err(value.error);
      }
      entries := entries + [(Str(input[i].0), value.value)];
      i := i + 1;
    }
    assert input[..i] == input;
    r := Ok(entries);
  }

  method UnmarshallTuple(t: SchemaType, input: seq<AttributeValue>) returns (r: Result<seq<JsValue>>)
    requires t.node.TupleType?
    ensures r == TupleFold(t, t.node.tupleMembers, input)
  {
    var members := t.node.tupleMembers;
    var tuple: seq<JsValue> := [];
    var i := 0;
    while i < |members|
      invariant 0 <= i <= |members|
      invariant TupleFold(t, members[..i], input) == Ok(tuple)
    {
      assert members[..i + 1][..i] == members[..i];
      var element := if i < |input| then UnmarshallValue(members[i], input[i]) else UnmarshallMissing(members[i]);
      if element.Err? {
        TupleErrSticky(t, members[..i + 1], members, input);
        return Err(element.error);
      }
      tuple := tuple + [element.value];
      i := i + 1;
    }
    assert members[..i] == members;
    r := Ok(tuple);
  }

  /** `unmarshallNumberSet`: `Number` of each member added to a new `Set`. */
  method UnmarshallNumberSet(input: seq<string>) returns (r: seq<JsValue>)
    ensures r == NumberSetSpec(input)
  {
    ghost var numbers := seq(|input|, k requires 0 <= k < |input| => NumberOf(input[k]));
    var members: seq<JsValue> := [];
    var i := 0;
    while i < |input|
      invariant 0 <= i <= |input|
      invariant members == AutoMarshaller.SetOf(numbers[..i])
    {
      assert numbers[..i + 1][..i] == numbers[..i];
      var n := NumberOf(input[i]);
      if n !in members {
        members := members + [n];
      }
      i := i + 1;
    }
    assert numbers[..i] == numbers;
    r := members;
  }

  /** `unmarshallStringSet`: each member added to a new `Set`. */
  method UnmarshallStringSet(input: seq<string>) returns (r: seq<JsValue>)
    ensures r == StringSetSpec(input)
  {
    ghost var strings := seq(|input|, k requires 0 <= k < |input| => Str(input[k]));
    var members: seq<JsValue> := [];
    var i := 0;
    while i < |input|
      invariant 0 <= i <= |input|
      invariant members == AutoMarshaller.SetOf(strings[..i])
    {
      assert strings[..i + 1][..i] == strings[..i];
      if Str(input[i]) !in members {
        members := members + [Str(input[i])];
      }
      i := i + 1;
    }
    assert strings[..i] == strings;
    r := members;
  }

  // Once a fold has thrown, later elements are never examined.

  lemma {:induction false} ItemErrSticky(parent: SchemaType, pre: Schema, full: Schema, input: seq<(string, AttributeValue)>)
    requires parent.node.DocumentType? && pre <= full <= parent.node.members
    requires ItemFold(parent, pre, input).Err?
    ensures ItemFold(parent, full, input) == ItemFold(parent, pre, input)
    decreases |full|
  {
    if |full| > |pre| {
      ItemErrSticky(parent, pre, full[..|full| - 1], input);
    } else {
      assert pre == full;
    }
  }

  lemma {:induction false} ListErrSticky(t: SchemaType, pre: seq<AttributeValue>, full: seq<AttributeValue>)
    requires t.node.ListType? && pre <= full
    requires ListFold(t, pre).Err?
    ensures ListFold(t, full) == ListFold(t, pre)
    decreases |full|
  {
    if |full| > |pre| {
      ListErrSticky(t, pre, full[..|full| - 1]);
    } else {
      assert pre == full;
    }
  }

  lemma {:induction false} MapErrSticky(t: SchemaType, pre: seq<(string, AttributeValue)>, full: seq<(string, AttributeValue)>)
    requires t.node.MapType? && pre <= full
    requires MapFold(t, pre).Err?
    ensures MapFold(t, full) == MapFold(t, pre)
    decreases |full|
  {
    if |full| > |pre| {
      MapErrSticky(t, pre, full[..|full| - 1]);
    } else {
      assert pre == full;
    }
  }

  lemma {:induction false} TupleErrSticky(t: SchemaType, pre: seq<SchemaType>, full: seq<SchemaType>, list: seq<AttributeValue>)
    requires t.node.TupleType? && pre <= full <= t.node.tupleMembers
    requires TupleFold(t, pre, list).Err?
    ensures TupleFold(t, full, list) == TupleFold(t, pre, list)
    decreases |full|
  {
    if |full| > |pre| {
      TupleErrSticky(t, pre, full[..|full| - 1], list);
    } else {
      assert pre == full;
    }
  }

  // ---------------------------------------------------------------------------
  // Properties

  /** What `unmarshallItem` makes of one schema property: nothing when its
      attribute name is absent, otherwise that attribute decoded. */
  function FieldValue(key: string, field: SchemaType, input: seq<(string, AttributeValue)>): Result<Option<JsValue>>
  {
    match Get(input, field.attributeName.GetOr(key))
    case None => Ok(None)
    case Some(a) => (match UnmarshallValue(field, a) case Err(e) => Err(e) case Ok(x) => Ok(Some(x)))
  }

  /** Every schema property with what `unmarshallItem` makes of it. */
  function FieldResults(schema: Schema, input: seq<(string, AttributeValue)>)
    : (fs: seq<(string, Result<Option<JsValue>>)>)
    ensures |fs| == |schema| && Keys(fs) == Keys(schema)
    ensures forall i :: 0 <= i < |schema| ==> fs[i] == (schema[i].0, FieldValue(schema[i].0, schema[i].1, input))
  {
    seq(|schema|, i requires 0 <= i < |schema| => (schema[i].0, FieldValue(schema[i].0, schema[i].1, input)))
  }

  /** `unmarshallItem`'s loop sets each property's decoded value, when there
      is one, under the property name, in schema order. */
  lemma {:induction false} ItemFoldAssembles(parent: SchemaType, schema: Schema, input: seq<(string, AttributeValue)>)
    requires parent.node.DocumentType? && schema <= parent.node.members
    ensures ItemFold(parent, schema, input) == Assemble(FieldResults(schema, input))
    decreases |schema|
  {
    if |schema| > 0 {
      var n := |schema| - 1;
      ItemFoldAssembles(parent, schema[..n], input);
      assert FieldResults(schema, input)[..n] == FieldResults(schema[..n], input);
    }
  }

  /** `unmarshallItem` sets only schema properties, each at most once, under
      the property name, and succeeds exactly when every property decodes;
      with distinct property names, a property is set exactly when its
      attribute name is present in the input, to that attribute decoded with
      the property's node. */
  lemma ItemFoldPresent(parent: SchemaType, schema: Schema, input: seq<(string, AttributeValue)>)
    requires parent.node.DocumentType? && schema <= parent.node.members
    ensures ItemFold(parent, schema, input).Ok? <==> forall i :: 0 <= i < |schema| ==> FieldValue(schema[i].0, schema[i].1, input).Ok?
    ensures ItemFold(parent, schema, input).Ok? ==> DistinctKeys(ItemFold(parent, schema, input).value)
    ensures ItemFold(parent, schema, input).Ok? ==> forall k :: k in Keys(ItemFold(parent, schema, input).value) ==> k in Keys(schema)
    ensures ItemFold(parent, schema, input).Ok? && DistinctKeys(schema) ==> forall i :: 0 <= i < |schema| ==>
      Get(ItemFold(parent, schema, input).value, schema[i].0) == FieldValue(schema[i].0, schema[i].1, input).value
  {
    var fs := FieldResults(schema, input);
    ItemFoldAssembles(parent, schema, input);
    AssembleFields(fs);
    assert forall i :: 0 <= i < |schema| ==> fs[i].1 == FieldValue(schema[i].0, schema[i].1, input);
  }

  /** With distinct property names and every attribute name present, the
      result holds every property, in schema order. */
  lemma ItemFoldAll(parent: SchemaType, schema: Schema, input: seq<(string, AttributeValue)>)
    requires parent.node.DocumentType? && schema <= parent.node.members
    requires DistinctKeys(schema)
    requires forall i :: 0 <= i < |schema| ==> FieldValue(schema[i].0, schema[i].1, input).Ok?
                                                && FieldValue(schema[i].0, schema[i].1, input).value.Some?
    ensures ItemFold(parent, schema, input).Ok?
    ensures Keys(ItemFold(parent, schema, input).value) == Keys(schema)
    ensures forall i :: 0 <= i < |schema| ==>
      ItemFold(parent, schema, input).value[i].1 == FieldValue(schema[i].0, schema[i].1, input).value.value
  {
    var fs := FieldResults(schema, input);
    ItemFoldAssembles(parent, schema, input);
    AssembleAll(fs);
  }

  /** Every List element with its decoded value. */
  function ListResults(t: SchemaType, list: seq<AttributeValue>): (rs: seq<Result<JsValue>>)
    requires t.node.ListType?
    ensures |rs| == |list| && forall i :: 0 <= i < |list| ==> rs[i] == UnmarshallValue(t.node.memberType, list[i])
  {
    seq(|list|, i requires 0 <= i < |list| => UnmarshallValue(t.node.memberType, list[i]))
  }

  /** `unmarshallList` keeps every decoded element in order. */
  lemma {:induction false} ListFoldCollects(t: SchemaType, list: seq<AttributeValue>)
    requires t.node.ListType?
    ensures ListFold(t, list) == Collect(ListResults(t, list))
    decreases |list|
  {
    if |list| > 0 {
      var n := |list| - 1;
      ListFoldCollects(t, list[..n]);
      assert ListResults(t, list)[..n] == ListResults(t, list[..n]);
    }
  }

  /** The elements of a List are decoded in order with its member type, one
      for one; the first that throws makes the whole list throw. */
  lemma ListFoldAll(t: SchemaType, list: seq<AttributeValue>)
    requires t.node.ListType?
    ensures ListFold(t, list).Ok? <==> forall i :: 0 <= i < |list| ==> UnmarshallValue(t.node.memberType, list[i]).Ok?
    ensures ListFold(t, list).Ok? ==>
      forall i :: 0 <= i < |list| ==> ListFold(t, list).value[i] == UnmarshallValue(t.node.memberType, list[i]).value
  {
    ListFoldCollects(t, list);
    CollectAll(ListResults(t, list));
  }

  /** One Map entry decoded, keyed by its attribute name. */
  function MapEntry(t: SchemaType, entry: (string, AttributeValue)): (r: Result<(JsValue, JsValue)>)
    requires t.node.MapType?
    ensures r.Ok? <==> UnmarshallValue(t.node.memberType, entry.1).Ok?
    ensures r.Ok? ==> r.value == (Str(entry.0), UnmarshallValue(t.node.memberType, entry.1).value)
  {
    match UnmarshallValue(t.node.memberType, entry.1)
    case Err(e) => Err(e)
    case Ok(x) => Ok((Str(entry.0), x))
  }

  /** Every Map entry decoded. */
  function MapResults(t: SchemaType, entries: seq<(string, AttributeValue)>): (rs: seq<Result<(JsValue, JsValue)>>)
    requires t.node.MapType?
    ensures |rs| == |entries| && forall i :: 0 <= i < |entries| ==> rs[i] == MapEntry(t, entries[i])
  {
    seq(|entries|, i requires 0 <= i < |entries| => MapEntry(t, entries[i]))
  }

  /** `unmarshallMap` keeps every decoded entry in order. */
  lemma {:induction false} MapFoldCollects(t: SchemaType, entries: seq<(string, AttributeValue)>)
    requires t.node.MapType?
    ensures MapFold(t, entries) == Collect(MapResults(t, entries))
    decreases |entries|
  {
    if |entries| > 0 {
      var n := |entries| - 1;
      MapFoldCollects(t, entries[..n]);
      assert MapResults(t, entries)[..n] == MapResults(t, entries[..n]);
    }
  }

  /** The entries of a Map are decoded in order, each keyed by its attribute name. */
  lemma MapFoldAll(t: SchemaType, entries: seq<(string, AttributeValue)>)
    requires t.node.MapType?
    ensures MapFold(t, entries).Ok? <==> forall i :: 0 <= i < |entries| ==> UnmarshallValue(t.node.memberType, entries[i].1).Ok?
    ensures MapFold(t, entries).Ok? ==>
      forall i :: 0 <= i < |entries| ==> MapFold(t, entries).value[i] == (Str(entries[i].0), UnmarshallValue(t.node.memberType, entries[i].1).value)
  {
    MapFoldCollects(t, entries);
    CollectAll(MapResults(t, entries));
  }

  /** Every tuple member with the element it decodes. */
  function TupleResults(members: seq<SchemaType>, list: seq<AttributeValue>): (rs: seq<Result<JsValue>>)
    requires |members| <= |list|
    ensures |rs| == |members| && forall i :: 0 <= i < |members| ==> rs[i] == UnmarshallValue(members[i], list[i])
  {
    seq(|members|, i requires 0 <= i < |members| => UnmarshallValue(members[i], list[i]))
  }

  /** `unmarshallTuple` keeps every decoded member in order. */
  lemma {:induction false} TupleFoldCollects(t: SchemaType, members: seq<SchemaType>, list: seq<AttributeValue>)
    requires t.node.TupleType? && members <= t.node.tupleMembers
    requires |members| <= |list|
    ensures TupleFold(t, members, list) == Collect(TupleResults(members, list))
    decreases |members|
  {
    if |members| > 0 {
      var n := |members| - 1;
      TupleFoldCollects(t, members[..n], list);
      assert TupleResults(members, list)[..n] == TupleResults(members[..n], list);
    }
  }

  /** Tuple element `i` is `input[i]` decoded with member `i`, for as many
      elements as the tuple has members. */
  lemma TupleFoldAll(t: SchemaType, members: seq<SchemaType>, list: seq<AttributeValue>)
    requires t.node.TupleType? && members <= t.node.tupleMembers
    requires |members| <= |list|
    ensures TupleFold(t, members, list).Ok? <==> forall i :: 0 <= i < |members| ==> UnmarshallValue(members[i], list[i]).Ok?
    ensures TupleFold(t, members, list).Ok? ==>
      forall i :: 0 <= i < |members| ==> TupleFold(t, members, list).value[i] == UnmarshallValue(members[i], list[i]).value
  {
    TupleFoldCollects(t, members, list);
    CollectAll(TupleResults(members, list));
  }

  /** A tuple attribute shorter than the tuple throws as soon as a missing
      member is not a Custom node. */
  lemma {:induction false} TupleTooShort(t: SchemaType, members: seq<SchemaType>, list: seq<AttributeValue>, j: nat)
    requires t.node.TupleType? && members <= t.node.tupleMembers
    requires |list| <= j < |members| && !members[j].node.CustomType?
    ensures TupleFold(t, members, list).Err?
    decreases |members|
  {
    var n := |members| - 1;
    if j < n {
      TupleTooShort(t, members[..n], list, j);
    }
  }

  /** When a shorter tuple attribute decodes, each missing member is a Custom
      node and its element is what that node's unmarshaller makes of `undefined`. */
  lemma {:induction false} TupleMissingCustom(t: SchemaType, members: seq<SchemaType>, list: seq<AttributeValue>, k: nat)
    requires t.node.TupleType? && members <= t.node.tupleMembers
    requires TupleFold(t, members, list).Ok?
    requires |list| <= k < |members|
    ensures members[k].node.CustomType?
    ensures TupleFold(t, members, list).value[k] == members[k].node.unmarshall(None)
    decreases |members|
  {
    var n := |members| - 1;
    if k < n {
      TupleMissingCustom(t, members[..n], list, k);
    }
  }
}
