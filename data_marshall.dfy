/** The schema-driven codec, encoding half: `marshallItem`, `marshallValue` and
    `marshallSet`. Each schema node decides how the value under it is written;
    the conversions the JavaScript host performs on its own (an object's
    `toString`, `Buffer.from`, `Date` parsing) are parameters. */
module DataMarshall {
  import opened Wrappers
  import opened Text
  import opened Values
  import opened BinarySets
  import opened SchemaTypes
  import AutoMarshaller
  import opened Folds

  const UnrecognizedNode := "Unrecognized schema node"
  const NotADate := "Unable to convert value to date"
  const NotMapLike := "Unable to convert value to map"

  /** The outcome of marshalling one value: a thrown error, `undefined`, or an attribute value. */
  type Marshalled = Result<Option<AttributeValue>>

  /** Conversions the host performs and this model leaves uninterpreted:
      `toString()` of an object, array, function or symbol; `Buffer.from(v)`
      of a value that is not binary; and `new Date(s)` of a string, as epoch
      milliseconds or `None` for an invalid date. */
  datatype Host = Host(
    objectString: JsValue -> string,
    bufferFrom: JsValue -> Result<seq<bv8>>,
    parseDate: string -> Option<int>)

  /** The largest magnitude of a valid `Date` time value, in milliseconds. */
  const MaxTime: int := 8_640_000_000_000_000

  /** `new Date(ms)`: a time value outside the valid range gives an invalid date. */
  function DateAt(ms: int): (d: JsValue)
    ensures d.Date? <==> -MaxTime <= ms <= MaxTime
    ensures d.Date? ==> d.ms == ms
    ensures d.Date? || d.InvalidDate?
  {
    if -MaxTime <= ms <= MaxTime then Date(ms) else InvalidDate
  }

  const NotIterable := "TypeError: value is not iterable"

  /** The `TypeError` a property read on `null` or `undefined` throws. */
  function ReadError(v: JsValue): string
  {
    "TypeError: Cannot read properties of " + (if v.Null? then "null" else "undefined")
  }

  /** `v.toString()` (`toString(10)` for numbers): `null` and `undefined` throw. */
  function ToText(host: Host, v: JsValue): (r: Result<string>)
    ensures r.Err? <==> v.Null? || v.Undefined?
    ensures v.Str? ==> r == Ok(v.s)
    ensures v.Num? ==> r == Ok(IntToString(v.n))
  {
    match v
    case Undefined => Err(ReadError(v))
    case Null => Err(ReadError(v))
    case Str(s) => Ok(s)
    case Bool(b) => Ok(if b then "true" else "false")
    case Num(_) => Ok(NumberText(v))
    case NaN => Ok(NumberText(v))
    case BigInt(_) => Ok(NumberText(v))
    case _ => Ok(host.objectString(v))
  }

  /** `String(key)` when `key` is used as a property name. */
  function PropertyKey(host: Host, key: JsValue): (k: string)
    ensures key.Str? ==> k == key.s
  {
    match key
    case Undefined => "undefined"
    case Null => "null"
    case _ => ToText(host, key).value
  }

  predicate Iterable(v: JsValue)
  {
    v.Array? || v.JsSet? || v.JsMap? || v.Str? || v.BinSet? || v.Binary?
  }

  /** The values `for (const x of v)` visits: a Map's entries as `[key, value]`
      pairs, a string's characters, a byte array's bytes as numbers. */
  function Iterate(v: JsValue): (r: Result<seq<JsValue>>)
    ensures r.Ok? <==> Iterable(v)
    ensures v.Array? ==> r == Ok(v.elems)
    ensures v.JsSet? ==> r == Ok(v.members)
    ensures r.Err? ==> r.error == NotIterable
  {
    match v
    case Array(es) => Ok(es)
    case JsSet(ms) => Ok(ms)
    case JsMap(es) => Ok(seq(|es|, i requires 0 <= i < |es| => Array([es[i].0, es[i].1])))
    case Str(s) => Ok(seq(|s|, i requires 0 <= i < |s| => Str([s[i]])))
    case BinSet(bs) => Ok(seq(|bs|, i requires 0 <= i < |bs| => Binary(bs[i])))
    case Binary(b) => Ok(seq(|b|, i requires 0 <= i < |b| => Num(b[i] as int)))
    case _ => Err(NotIterable)
  }

  /** `input[key]` for a property of a record: an object's own property, or
      `undefined`; reading from `null` or `undefined` throws. */
  function Prop(input: JsValue, key: string): (r: Result<JsValue>)
    ensures r.Err? <==> input.Null? || input.Undefined?
    ensures input.Object? ==> r == Ok(Get(input.props, key).GetOr(Undefined))
  {
    match input
    case Object(ps) => Ok(Get(ps, key).GetOr(Undefined))
    case Null => Err(ReadError(input))
    case Undefined => Err(ReadError(input))
    case _ => Ok(Undefined)
  }

  /** `input[i]` for a tuple member; on a plain object the index is read as the
      property named by its decimal digits. */
  function At(input: JsValue, i: nat): (r: Result<JsValue>)
    ensures r.Err? <==> input.Null? || input.Undefined?
    ensures input.Array? && i < |input.elems| ==> r == Ok(input.elems[i])
    ensures input.Object? ==> r == Prop(input, NatToString(i))
  {
    match input
    case Object(ps) => Ok(Get(ps, NatToString(i)).GetOr(Undefined))
    case Array(es) => Ok(if i < |es| then es[i] else Undefined)
    case Str(s) => Ok(if i < |s| then Str([s[i]]) else Undefined)
    case Binary(b) => Ok(if i < |b| then Num(b[i] as int) else Undefined)
    case Null => Err(ReadError(input))
    case Undefined => Err(ReadError(input))
    case _ => Ok(Undefined)
  }

  /** The options of an Any, Collection or Hash node when marshalling: unset
      options default to `nullify`, `omit` and `false`. */
  function MarshallOptions(opts: MarshallingOptions): (o: AutoMarshaller.Options)
    ensures opts.onEmpty.None? ==> o.onEmpty == AutoMarshaller.Nullify
    ensures opts.onInvalid.None? ==> o.onInvalid == AutoMarshaller.OmitInvalid
    ensures opts.unwrapNumbers.None? ==> !o.unwrapNumbers
  {
    AutoMarshaller.NewMarshaller(Some(opts.onEmpty.GetOr(AutoMarshaller.Nullify)),
                                 Some(opts.onInvalid.GetOr(AutoMarshaller.OmitInvalid)),
                                 Some(opts.unwrapNumbers.GetOr(false)))
  }

  // ---------------------------------------------------------------------------
  // marshallValue

  /** `marshallValue`: an `undefined` input takes the node's default, if it has
      one, and is omitted otherwise. */
  function MarshallValue(host: Host, t: SchemaType, input: JsValue): (r: Marshalled)
    decreases t, 2
  {
    if input.Undefined? && t.defaultProvider.None? then Ok(None)
    else MarshallNode(host, t, if input.Undefined? then t.defaultProvider.value else input)
  }

  /** `marshallValue` as the value its callers receive: the mapper's
      `update` and `marshallStartKey` are modelled over any such function, and
      the mapper hands them `MarshallerOf(host)`. */
  type ValueMarshaller = (SchemaType, JsValue) -> Marshalled

  function MarshallerOf(host: Host): (m: ValueMarshaller)
    ensures forall t, v :: m(t, v) == MarshallValue(host, t, v)
  {
    (t, v) => MarshallValue(host, t, v)
  }

  /** The node-type dispatch of `marshallValue` on a value that is not (or no
      longer) `undefined`. */
  function MarshallNode(host: Host, t: SchemaType, v: JsValue): (r: Marshalled)
    decreases t, 1
  {
    match t.node
    case AnyType(opts) => AutoMarshaller.MarshallValue(MarshallOptions(opts), v)
    case BinaryType(_) => MarshallBinaryNode(host, v)
    case BooleanType => Ok(Some(BOOL(Truthy(v))))
    case CustomType(_, _, marshall, _) => Ok(Some(marshall(v)))
    case CollectionType(opts) =>
      (match Iterate(v)
       case Err(e) => Err(e)
       case Ok(items) =>
         match AutoMarshaller.ListSpec(MarshallOptions(opts), Array(items), items)
         case Err(e) => Err(e)
         case Ok(vs) => Ok(Some(L(vs))))
    case DateType(_) => MarshallDate(host, v)
    case DocumentType(members) =>
      (match ItemFold(host, t, members, v) case Err(e) => Err(e) case Ok(m) => Ok(Some(M(m))))
    case HashType(opts) =>
      (match AutoMarshaller.MarshallItem(MarshallOptions(opts), v) case Err(e) => Err(e) case Ok(m) => Ok(Some(M(m))))
    case ListType(_) =>
      (match Iterate(v)
       case Err(e) => Err(e)
       case Ok(items) => match ListFold(host, t, items) case Err(e) => Err(e) case Ok(vs) => Ok(Some(L(vs))))
    case MapType(_) => MarshallMapNode(host, t, v)
    case NullType => Ok(Some(NULL(true)))
    case NumberType(_, _) => (match ToText(host, v) case Err(e) => Err(e) case Ok(n) => Ok(Some(N(n))))
    case SetType(memberType) => MarshallSetNode(host, memberType, v)
    case StringType(_) =>
      (match ToText(host, v) case Err(e) => Err(e) case Ok(s) => Ok(Some(if |s| == 0 then NULL(true) else S(s))))
    case TupleType(members) =>
      (match TupleFold(host, t, members, v) case Err(e) => Err(e) case Ok(vs) => Ok(Some(L(vs))))
    case UnrecognizedType(_) => Err(UnrecognizedNode)
  }

  /** `input.length === 0 || input.byteLength === 0`. */
  predicate ZeroLength(v: JsValue)
  {
    match v
    case Str(s) => |s| == 0
    case Array(es) => |es| == 0
    case Binary(b) => |b| == 0
    case Object(ps) => Get(ps, "length") == Some(Num(0)) || Get(ps, "byteLength") == Some(Num(0))
    case _ => false
  }

  /** `marshallBinary`: a byte view keeps its bytes; anything else goes through `Buffer.from`. */
  function BinaryBytes(host: Host, v: JsValue): (r: Result<seq<bv8>>)
    ensures v.Binary? ==> r == Ok(v.bytes)
  {
    if v.Binary? then Ok(v.bytes) else host.bufferFrom(v)
  }

  /** A Binary node: a falsy or zero-length input is stored as `NULL`. */
  function MarshallBinaryNode(host: Host, v: JsValue): (r: Marshalled)
  {
    if !Truthy(v) || ZeroLength(v) then Ok(Some(NULL(true)))
    else match BinaryBytes(host, v) case Err(e) => Err(e) case Ok(b) => Ok(Some(B(b)))
  }

  /** A Date node: whole epoch seconds, rounded down. */
  function MarshallDate(host: Host, v: JsValue): (r: Marshalled)
  {
    var date :=
      match v
      case Str(s) => Ok(match host.parseDate(s) case Some(ms) => DateAt(ms) case None => InvalidDate)
      case Num(n) => Ok(DateAt(n * 1000))
      case NaN => Ok(InvalidDate)
      case Date(_) => Ok(v)
      case InvalidDate => Ok(v)
      case _ => Err(NotADate);
    match date
    case Err(e) => Err(e)
    case Ok(d) => Ok(Some(N(if d.Date? then IntToString(d.ms / 1000) else "NaN")))
  }

  /** `marshallItem`'s loop: every schema property read off the input,
      marshalled, and stored under its attribute name when defined. */
  function ItemFold(host: Host, ghost parent: SchemaType, schema: Schema, input: JsValue)
    : (r: Result<seq<(string, AttributeValue)>>)
    requires parent.node.DocumentType? && schema <= parent.node.members
    decreases parent, 0, |schema|
  {
    if |schema| == 0 then Ok([])
    else
      match ItemFold(host, parent, schema[..|schema| - 1], input)
      case Err(e) => Err(e)
      case Ok(m) =>
        var (key, field) := schema[|schema| - 1];
        match Prop(input, key)
        case Err(e) => Err(e)
        case Ok(x) =>
          match MarshallValue(host, field, x)
          case Err(e) => Err(e)
          case Ok(None) => Ok(m)
          case Ok(Some(a)) => Ok(Put(m, field.attributeName.GetOr(key), a))
  }

  /** `marshallItem(schema, input)`. */
  function MarshallItemSpec(host: Host, schema: Schema, input: JsValue): Result<seq<(string, AttributeValue)>>
  {
    ItemFold(host, Root(schema), schema, input)
  }

  /** The List branch: members marshalled with `memberType`, undefined ones dropped. */
  function ListFold(host: Host, t: SchemaType, items: seq<JsValue>): (r: Result<seq<AttributeValue>>)
    requires t.node.ListType?
    ensures r.Ok? ==> |r.value| <= |items|
    decreases t, 0, |items|
  {
    if |items| == 0 then Ok([])
    else
      match ListFold(host, t, items[..|items| - 1])
      case Err(e) => Err(e)
      case Ok(vs) =>
        match MarshallValue(host, t.node.memberType, items[|items| - 1])
        case Err(e) => Err(e)
        case Ok(None) => Ok(vs)
        case Ok(Some(a)) => Ok(vs + [a])
  }

  /** The Map branch. */
  function MarshallMapNode(host: Host, t: SchemaType, v: JsValue): (r: Marshalled)
    requires t.node.MapType?
    decreases t, 0
  {
    if Iterable(v) then
      match MapEntriesFold(host, t, Iterate(v).value) case Err(e) => Err(e) case Ok(m) => Ok(Some(M(m)))
    else if v.Null? || v.Undefined? then Err(ReadError(v))
    else if v.Object? then
      match MapObjectFold(host, t, v.props) case Err(e) => Err(e) case Ok(m) => Ok(Some(M(m)))
    else if v.Date? || v.InvalidDate? then Ok(Some(M([])))
    else Err(NotMapLike)
  }

  /** `for (const [key, value] of input)`: each entry is destructured, its value
      marshalled with `memberType` and stored under `String(key)` when defined. */
  function MapEntriesFold(host: Host, t: SchemaType, entries: seq<JsValue>)
    : (r: Result<seq<(string, AttributeValue)>>)
    requires t.node.MapType?
    decreases t, 0, |entries|
  {
    if |entries| == 0 then Ok([])
    else
      match MapEntriesFold(host, t, entries[..|entries| - 1])
      case Err(e) => Err(e)
      case Ok(m) =>
        var (key, value) := EntryResult(host, t, entries[|entries| - 1]);
        match value
        case Err(e) => Err(e)
        case Ok(None) => Ok(m)
        case Ok(Some(a)) => Ok(Put(m, key, a))
  }

  /** One `[key, value]` entry of a Map: the key it is stored under and its
      marshalled value; an entry that is not iterable throws. */
  function EntryResult(host: Host, t: SchemaType, entry: JsValue): (f: (string, Marshalled))
    requires t.node.MapType?
    ensures entry.Array? && |entry.elems| == 2 && entry.elems[0].Str? ==>
      f == (entry.elems[0].s, MarshallValue(host, t.node.memberType, entry.elems[1]))
    decreases t, 0, 0
  {
    match Iterate(entry)
    case Err(e) => ("", Err(e))
    case Ok(pair) =>
      var key := if |pair| > 0 then pair[0] else Undefined;
      var value := if |pair| > 1 then pair[1] else Undefined;
      (PropertyKey(host, key), MarshallValue(host, t.node.memberType, value))
  }

  /** `for (const key of Object.keys(input))` on a plain object. */
  function MapObjectFold(host: Host, t: SchemaType, props: seq<(string, JsValue)>)
    : (r: Result<seq<(string, AttributeValue)>>)
    requires t.node.MapType?
    decreases t, 0, |props|
  {
    if |props| == 0 then Ok([])
    else
      match MapObjectFold(host, t, props[..|props| - 1])
      case Err(e) => Err(e)
      case Ok(m) =>
        match MarshallValue(host, t.node.memberType, props[|props| - 1].1)
        case Err(e) => Err(e)
        case Ok(None) => Ok(m)
        case Ok(Some(a)) => Ok(Put(m, props[|props| - 1].0, a))
  }

  /** The Tuple branch: member `i` marshals `input[i]`; undefined results are filtered out. */
  function TupleFold(host: Host, t: SchemaType, members: seq<SchemaType>, input: JsValue)
    : (r: Result<seq<AttributeValue>>)
    requires t.node.TupleType? && members <= t.node.tupleMembers
    ensures r.Ok? ==> |r.value| <= |members|
    decreases t, 0, |members|
  {
    if |members| == 0 then Ok([])
    else
      match TupleFold(host, t, members[..|members| - 1], input)
      case Err(e) => Err(e)
      case Ok(vs) =>
        match TupleMember(host, t, members[|members| - 1], input, |members| - 1)
        case Err(e) => Err(e)
        case Ok(None) => Ok(vs)
        case Ok(Some(a)) => Ok(vs + [a])
  }

  /** Tuple member `member`, at position `i`, marshalling `input[i]`. */
  function TupleMember(host: Host, ghost t: SchemaType, member: SchemaType, input: JsValue, i: nat): (r: Marshalled)
    requires t.node.TupleType? && member in t.node.tupleMembers
    decreases t, 0, 0
  {
    match At(input, i) case Err(e) => Err(e) case Ok(x) => MarshallValue(host, member, x)
  }

  // ---------------------------------------------------------------------------
  // Sets

  /** The Set branch, by member type. */
  function MarshallSetNode(host: Host, memberType: string, v: JsValue): (r: Marshalled)
  {
    if memberType == BinaryMember then
      match BinaryMembers(host, v)
      case Err(e) => Err(e)
      case Ok(bs) => SetResult(MarshallSetSpec(BinaryValues(bs), BytesMarshaller(host), IsEmptyBytes, BinaryTag))
    else if memberType == NumberMember then
      match SetMembers(v)
      case Err(e) => Err(e)
      case Ok(ms) => SetResult(MarshallSetSpec(ms, TextMarshaller(host), NeverEmpty, NumberTag))
    else if memberType == StringMember then
      match SetMembers(v)
      case Err(e) => Err(e)
      case Ok(ms) => SetResult(MarshallSetSpec(ms, TextMarshaller(host), IsEmptyText, StringTag))
    else Err(UnrecognizedMemberType(memberType))
  }

  /** The member marshaller of a Binary set: `marshallBinary`. */
  function BytesMarshaller(host: Host): JsValue -> Result<seq<bv8>>
  {
    x => BinaryBytes(host, x)
  }

  /** The member marshaller of a Number or String set: `toString()`. */
  function TextMarshaller(host: Host): JsValue -> Result<string>
  {
    x => ToText(host, x)
  }

  function SetResult(r: Result<AttributeValue>): Marshalled
  {
    match r case Err(e) => Err(e) case Ok(a) => Ok(Some(a))
  }

  predicate IsEmptyBytes(b: seq<bv8>) { |b| == 0 }
  predicate IsEmptyText(s: string) { |s| == 0 }
  predicate NeverEmpty(s: string) { false }
  function BinaryTag(bs: seq<seq<bv8>>): AttributeValue { BS(bs) }
  function NumberTag(ns: seq<string>): AttributeValue { NS(ns) }
  function StringTag(ss: seq<string>): AttributeValue { SS(ss) }

  function BinaryValues(bs: seq<seq<bv8>>): (vs: seq<JsValue>)
    ensures |vs| == |bs| && forall i :: 0 <= i < |bs| ==> vs[i] == Binary(bs[i])
  {
    seq(|bs|, i requires 0 <= i < |bs| => Binary(bs[i]))
  }

  /** The members of a Number or String set: a `Set` as it is, otherwise `new
      Set(input)` (empty for `null` and `undefined`). */
  function SetMembers(v: JsValue): (r: Result<seq<JsValue>>)
    ensures v.JsSet? ==> r == Ok(v.members)
    ensures v.Null? || v.Undefined? ==> r == Ok([])
  {
    if v.JsSet? then Ok(v.members)
    else if v.Null? || v.Undefined? then Ok([])
    else match Iterate(v) case Err(e) => Err(e) case Ok(items) => Ok(AutoMarshaller.SetOf(items))
  }

  /** The byte strings of a Binary set: a `BinarySet` as it is, otherwise a new
      `BinarySet` to which every member's bytes are added. */
  function BinaryMembers(host: Host, v: JsValue): (r: Result<seq<seq<bv8>>>)
    ensures v.BinSet? ==> r == Ok(v.values)
  {
    if v.BinSet? then Ok(v.values)
    else match Iterate(v)
      case Err(e) => Err(e)
      case Ok(items) => match BytesFold(host, items) case Err(e) => Err(e) case Ok(bs) => Ok(BinarySetOf(bs))
  }

  /** `marshallBinary` applied to every member in turn. */
  function BytesFold(host: Host, items: seq<JsValue>): (r: Result<seq<seq<bv8>>>)
    ensures r.Ok? ==> |r.value| == |items|
    decreases |items|
  {
    if |items| == 0 then Ok([])
    else
      match BytesFold(host, items[..|items| - 1])
      case Err(e) => Err(e)
      case Ok(bs) =>
        match BinaryBytes(host, items[|items| - 1]) case Err(e) => Err(e) case Ok(b) => Ok(bs + [b])
  }

  /** `marshallSet`'s loop: each member marshalled, empty results skipped. */
  function CollectFold<E>(members: seq<JsValue>, marshaller: JsValue -> Result<E>, isEmpty: E -> bool)
    : (r: Result<seq<E>>)
    ensures r.Ok? ==> |r.value| <= |members|
    ensures r.Ok? ==> forall i :: 0 <= i < |r.value| ==> !isEmpty(r.value[i])
    decreases |members|
  {
    if |members| == 0 then Ok([])
    else
      match CollectFold(members[..|members| - 1], marshaller, isEmpty)
      case Err(e) => Err(e)
      case Ok(collected) =>
        match marshaller(members[|members| - 1])
        case Err(e) => Err(e)
        case Ok(x) => Ok(if isEmpty(x) then collected else collected + [x])
  }

  /** `marshallSet`: no members left gives `NULL`, otherwise the set tag holds them. */
  function MarshallSetSpec<E>(members: seq<JsValue>, marshaller: JsValue -> Result<E>, isEmpty: E -> bool,
                              tag: seq<E> -> AttributeValue): Result<AttributeValue>
  {
    match CollectFold(members, marshaller, isEmpty)
    case Err(e) => Err(e)
    case Ok(collected) => Ok(if |collected| == 0 then NULL(true) else tag(collected))
  }

  // ---------------------------------------------------------------------------
  // The loops of `marshallItem`, the Collection, List and Map branches and `marshallSet`

  method MarshallItem(host: Host, schema: Schema, input: JsValue) returns (r: Result<seq<(string, AttributeValue)>>)
    ensures r == MarshallItemSpec(host, schema, input)
  {
    var marshalled: seq<(string, AttributeValue)> := [];
    var i := 0;
    while i < |schema|
      invariant 0 <= i <= |schema|
      invariant ItemFold(host, Root(schema), schema[..i], input) == Ok(marshalled)
    {
      assert schema[..i + 1][..i] == schema[..i];
      var (key, field) := schema[i];
      var value := Prop(input, key);
      if value.Err? {
        ItemErrSticky(host, Root(schema), schema[..i + 1], schema, input);
        return Err(value.error);
      }
      var marshalledValue := MarshallValue(host, field, value.value);
      match marshalledValue {
        case Err(e) =>
          ItemErrSticky(host, Root(schema), schema[..i + 1], schema, input);
          return Err(e);
        case Ok(None) =>
        case Ok(Some(a)) =>
          marshalled := Put(marshalled, field.attributeName.GetOr(key), a);
      }
      i := i + 1;
    }
    assert schema[..i] == schema;
    r := Ok(marshalled);
  }

  /** The Collection branch: every element through the node's auto-marshaller. */
  method MarshallCollection(o: AutoMarshaller.Options, items: seq<JsValue>) returns (r: Result<seq<AttributeValue>>)
    ensures r == AutoMarshaller.ListSpec(o, Array(items), items)
  {
    var collected: seq<AttributeValue> := [];
    var i := 0;
    while i < |items|
      invariant 0 <= i <= |items|
      invariant AutoMarshaller.ListSpec(o, Array(items), items[..i]) == Ok(collected)
    {
      assert items[..i + 1][..i] == items[..i];
      var marshalled := AutoMarshaller.MarshallValue(o, items[i]);
      match marshalled {
        case Err(e) =>
          AutoMarshaller.ListErrSticky(o, Array(items), items[..i + 1], items);
          return Err(e);
        case Ok(None) =>
        case Ok(Some(a)) =>
          collected := collected + [a];
      }
      i := i + 1;
    }
    assert items[..i] == items;
    r := Ok(collected);
  }

  /** The List branch. */
  method MarshallList(host: Host, t: SchemaType, items: seq<JsValue>) returns (r: Result<seq<AttributeValue>>)
    requires t.node.ListType?
    ensures r == ListFold(host, t, items)
  {
    var elements: seq<AttributeValue> := [];
    var i := 0;
    while i < |items|
      invariant 0 <= i <= |items|
      invariant ListFold(host, t, items[..i]) == Ok(elements)
    {
      assert items[..i + 1][..i] == items[..i];
      var marshalled := MarshallValue(host, t.node.memberType, items[i]);
      match marshalled {
        case Err(e) =>
          ListErrSticky(host, t, items[..i + 1], items);
          return Err(e);
        case Ok(None) =>
        case Ok(Some(a)) =>
          elements := elements + [a];
      }
      i := i + 1;
    }
    assert items[..i] == items;
    r := Ok(elements);
  }

  /** The Map branch over an iterable input. */
  method MarshallMapEntries(host: Host, t: SchemaType, entries: seq<JsValue>)
    returns (r: Result<seq<(string, AttributeValue)>>)
    requires t.node.MapType?
    ensures r == MapEntriesFold(host, t, entries)
  {
    var marshalled: seq<(string, AttributeValue)> := [];
    var i := 0;
    while i < |entries|
      invariant 0 <= i <= |entries|
      invariant MapEntriesFold(host, t, entries[..i]) == Ok(marshalled)
    {
      assert entries[..i + 1][..i] == entries[..i];
      var pair := Iterate(entries[i]);
      if pair.Err? {
        MapEntriesErrSticky(host, t, entries[..i + 1], entries);
        return Err(pair.error);
      }
      var key := if |pair.value| > 0 then pair.value[0] else Undefined;
      var value := if |pair.value| > 1 then pair.value[1] else Undefined;
      var marshalledValue := MarshallValue(host, t.node.memberType, value);
      match marshalledValue {
        case Err(e) =>
          MapEntriesErrSticky(host, t, entries[..i + 1], entries);
          return Err(e);
        case Ok(None) =>
        case Ok(Some(a)) =>
          marshalled := Put(marshalled, PropertyKey(host, key), a);
      }
      i := i + 1;
    }
    assert entries[..i] == entries;
    r := Ok(marshalled);
  }

  /** The Map branch over a plain object. */
  method MarshallMapObject(host: Host, t: SchemaType, props: seq<(string, JsValue)>)
    returns (r: Result<seq<(string, AttributeValue)>>)
    requires t.node.MapType?
    ensures r == MapObjectFold(host, t, props)
  {
    var marshalled: seq<(string, AttributeValue)> := [];
    var i := 0;
    while i < |props|
      invariant 0 <= i <= |props|
      invariant MapObjectFold(host, t, props[..i]) == Ok(marshalled)
    {
      assert props[..i + 1][..i] == props[..i];
      var marshalledValue := MarshallValue(host, t.node.memberType, props[i].1);
      match marshalledValue {
        case Err(e) =>
          MapObjectErrSticky(host, t, props[..i + 1], props);
          return Err(e);
        case Ok(None) =>
        case Ok(Some(a)) =>
          marshalled := Put(marshalled, props[i].0, a);
      }
      i := i + 1;
    }
    assert props[..i] == props;
    r := Ok(marshalled);
  }

  /** `marshallSet`. */
  method MarshallSet<E>(members: seq<JsValue>, marshaller: JsValue -> Result<E>, isEmpty: E -> bool,
                        tag: seq<E> -> AttributeValue) returns (r: Result<AttributeValue>)
    ensures r == MarshallSetSpec(members, marshaller, isEmpty, tag)
  {
    var collected: seq<E> := [];
    var i := 0;
    while i < |members|
      invariant 0 <= i <= |members|
      invariant CollectFold(members[..i], marshaller, isEmpty) == Ok(collected)
    {
      assert members[..i + 1][..i] == members[..i];
      var marshalled := marshaller(members[i]);
      if marshalled.Err? {
        CollectErrSticky(members[..i + 1], members, marshaller, isEmpty);
        return Err(marshalled.error);
      }
      if !isEmpty(marshalled.value) {
        collected := collected + [marshalled.value];
      }
      i := i + 1;
    }
    assert members[..i] == members;
    if |collected| == 0 {
      return Ok(NULL(true));
    }
    r := Ok(tag(collected));
  }

  /** The Binary set branch's `new BinarySet()` filled by `add(marshallBinary(item))`. */
  method BuildBinarySet(host: Host, items: seq<JsValue>) returns (r: Result<seq<seq<bv8>>>)
    ensures r.Ok? <==> BytesFold(host, items).Ok?
    ensures r.Ok? ==> r.value == BinarySetOf(BytesFold(host, items).value)
  {
    var binarySet := new BinarySet([]);
    ghost var added: seq<BinaryValue> := [];
    ghost var bytes: seq<seq<bv8>> := [];
    var i := 0;
    while i < |items|
      invariant 0 <= i <= |items|
      invariant binarySet.Valid() && binarySet.values == FromSpec(added)
      invariant BytesFold(host, items[..i]) == Ok(bytes) && Contents(added) == bytes
      modifies binarySet
    {
      assert items[..i + 1][..i] == items[..i];
      var b := BinaryBytes(host, items[i]);
      if b.Err? {
        BytesErrSticky(host, items[..i + 1], items);
        return Err(b.error);
      }
      binarySet.Add(ArrayBuffer(b.value));
      assert added + [ArrayBuffer(b.value)] == (added + [ArrayBuffer(b.value)])[..|added|] + [ArrayBuffer(b.value)];
      assert (added + [ArrayBuffer(b.value)])[..|added|] == added;
      added := added + [ArrayBuffer(b.value)];
      bytes := bytes + [b.value];
      assert Contents(added) == bytes;
      i := i + 1;
    }
    assert items[..i] == items;
    FromSpecContents(added);
    r := Ok(Contents(binarySet.values));
  }

  // Once a fold has thrown, later elements are never examined.

  lemma {:induction false} ItemErrSticky(host: Host, parent: SchemaType, pre: Schema, full: Schema, input: JsValue)
    requires parent.node.DocumentType? && pre <= full <= parent.node.members
    requires ItemFold(host, parent, pre, input).Err?
    ensures ItemFold(host, parent, full, input) == ItemFold(host, parent, pre, input)
    decreases |full|
  {
    if |full| > |pre| {
      ItemErrSticky(host, parent, pre, full[..|full| - 1], input);
    } else {
      assert pre == full;
    }
  }

  lemma {:induction false} ListErrSticky(host: Host, t: SchemaType, pre: seq<JsValue>, full: seq<JsValue>)
    requires t.node.ListType? && pre <= full
    requires ListFold(host, t, pre).Err?
    ensures ListFold(host, t, full) == ListFold(host, t, pre)
    decreases |full|
  {
    if |full| > |pre| {
      ListErrSticky(host, t, pre, full[..|full| - 1]);
    } else {
      assert pre == full;
    }
  }

  lemma {:induction false} MapEntriesErrSticky(host: Host, t: SchemaType, pre: seq<JsValue>, full: seq<JsValue>)
    requires t.node.MapType? && pre <= full
    requires MapEntriesFold(host, t, pre).Err?
    ensures MapEntriesFold(host, t, full) == MapEntriesFold(host, t, pre)
    decreases |full|
  {
    if |full| > |pre| {
      MapEntriesErrSticky(host, t, pre, full[..|full| - 1]);
    } else {
      assert pre == full;
    }
  }

  lemma {:induction false} MapObjectErrSticky(host: Host, t: SchemaType, pre: seq<(string, JsValue)>, full: seq<(string, JsValue)>)
    requires t.node.MapType? && pre <= full
    requires MapObjectFold(host, t, pre).Err?
    ensures MapObjectFold(host, t, full) == MapObjectFold(host, t, pre)
    decreases |full|
  {
    if |full| > |pre| {
      MapObjectErrSticky(host, t, pre, full[..|full| - 1]);
    } else {
      assert pre == full;
    }
  }

  lemma {:induction false} CollectErrSticky<E>(pre: seq<JsValue>, full: seq<JsValue>, marshaller: JsValue -> Result<E>, isEmpty: E -> bool)
    requires pre <= full
    requires CollectFold(pre, marshaller, isEmpty).Err?
    ensures CollectFold(full, marshaller, isEmpty) == CollectFold(pre, marshaller, isEmpty)
    decreases |full|
  {
    if |full| > |pre| {
      CollectErrSticky(pre, full[..|full| - 1], marshaller, isEmpty);
    } else {
      assert pre == full;
    }
  }

  lemma {:induction false} BytesErrSticky(host: Host, pre: seq<JsValue>, full: seq<JsValue>)
    requires pre <= full
    requires BytesFold(host, pre).Err?
    ensures BytesFold(host, full) == BytesFold(host, pre)
    decreases |full|
  {
    if |full| > |pre| {
      BytesErrSticky(host, pre, full[..|full| - 1]);
    } else {
      assert pre == full;
    }
  }

  // ---------------------------------------------------------------------------
  // Properties

  /** The attribute names of a schema's properties, in declaration order. */
  function AttributeNames(schema: Schema): (names: seq<string>)
    ensures |names| == |schema|
    ensures forall i :: 0 <= i < |schema| ==> names[i] == NameAt(schema, i)
  {
    seq(|schema|, i requires 0 <= i < |schema| => NameAt(schema, i))
  }

  /** What `marshallItem` makes of one schema property: its value read off the
      input and marshalled with the property's node. */
  function FieldValue(host: Host, key: string, field: SchemaType, input: JsValue): Marshalled
  {
    match Prop(input, key) case Err(e) => Err(e) case Ok(x) => MarshallValue(host, field, x)
  }

  /** Every schema property with its attribute name and its marshalled value. */
  function FieldResults(host: Host, schema: Schema, input: JsValue): (fs: seq<(string, Marshalled)>)
    ensures |fs| == |schema| && Keys(fs) == AttributeNames(schema)
    ensures forall i :: 0 <= i < |schema| ==> fs[i] == (NameAt(schema, i), FieldValue(host, schema[i].0, schema[i].1, input))
  {
    seq(|schema|, i requires 0 <= i < |schema| => (NameAt(schema, i), FieldValue(host, schema[i].0, schema[i].1, input)))
  }

  /** `marshallItem`'s loop stores each property's defined value under its
      attribute name, in schema order. */
  lemma {:induction false} ItemFoldAssembles(host: Host, parent: SchemaType, schema: Schema, input: JsValue)
    requires parent.node.DocumentType? && schema <= parent.node.members
    ensures ItemFold(host, parent, schema, input) == Assemble(FieldResults(host, schema, input))
    decreases |schema|
  {
    if |schema| > 0 {
      var n := |schema| - 1;
      var fs := FieldResults(host, schema, input);
      ItemFoldAssembles(host, parent, schema[..n], input);
      assert fs[..n] == FieldResults(host, schema[..n], input);
      assert fs[n] == (NameAt(schema, n), FieldValue(host, schema[n].0, schema[n].1, input));
    }
  }

  /** `marshallItem` writes only attribute names the schema declares, each at
      most once, and succeeds only if every property marshals; when the
      attribute names are distinct, each holds exactly its property's
      marshalled value and is absent exactly when that value is undefined. */
  lemma ItemFoldFields(host: Host, parent: SchemaType, schema: Schema, input: JsValue)
    requires parent.node.DocumentType? && schema <= parent.node.members
    requires ItemFold(host, parent, schema, input).Ok?
    ensures DistinctKeys(ItemFold(host, parent, schema, input).value)
    ensures forall k :: k in Keys(ItemFold(host, parent, schema, input).value) ==> k in AttributeNames(schema)
    ensures forall i :: 0 <= i < |schema| ==> FieldValue(host, schema[i].0, schema[i].1, input).Ok?
    ensures Distinct(AttributeNames(schema)) ==>
      forall i :: 0 <= i < |schema| ==>
        Get(ItemFold(host, parent, schema, input).value, NameAt(schema, i))
          == FieldValue(host, schema[i].0, schema[i].1, input).value
  {
    var fs := FieldResults(host, schema, input);
    ItemFoldAssembles(host, parent, schema, input);
    AssembleFields(fs);
    assert forall i :: 0 <= i < |schema| ==> fs[i].1 == FieldValue(host, schema[i].0, schema[i].1, input);
  }

  /** `marshallItem` reads nothing but the schema's properties: two inputs that
      agree on them marshal alike, whatever else they hold. */
  lemma {:induction false} ItemFoldReadsOnlySchema(host: Host, parent: SchemaType, schema: Schema, input1: JsValue, input2: JsValue)
    requires parent.node.DocumentType? && schema <= parent.node.members
    requires forall i :: 0 <= i < |schema| ==> Prop(input1, schema[i].0) == Prop(input2, schema[i].0)
    ensures ItemFold(host, parent, schema, input1) == ItemFold(host, parent, schema, input2)
    decreases |schema|
  {
    if |schema| > 0 {
      ItemFoldReadsOnlySchema(host, parent, schema[..|schema| - 1], input1, input2);
    }
  }

  /** A marshalled element as the list it contributes: none when undefined. */
  function Contribution(m: Marshalled): Result<seq<AttributeValue>>
  {
    match m
    case Err(e) => Err(e)
    case Ok(None) => Ok([])
    case Ok(Some(a)) => Ok([a])
  }

  /** Two partial results one after the other; the first error wins. */
  function Then(x: Result<seq<AttributeValue>>, y: Result<seq<AttributeValue>>): Result<seq<AttributeValue>>
  {
    match x
    case Err(e) => Err(e)
    case Ok(xs) => (match y case Err(e) => Err(e) case Ok(ys) => Ok(xs + ys))
  }

  /** The List branch treats elements one at a time and in order: the result
      for `a + b` is the result for `a` followed by the result for `b`. */
  lemma {:induction false} ListFoldAppend(host: Host, t: SchemaType, a: seq<JsValue>, b: seq<JsValue>)
    requires t.node.ListType?
    ensures ListFold(host, t, a + b) == Then(ListFold(host, t, a), ListFold(host, t, b))
    decreases |b|
  {
    if |b| == 0 {
      assert a + b == a;
      if ListFold(host, t, a).Ok? {
        assert ListFold(host, t, a).value + [] == ListFold(host, t, a).value;
      }
    } else {
      var b', last := b[..|b| - 1], b[|b| - 1];
      assert b == b' + [last];
      assert a + b == (a + b') + [last];
      ListFoldAppend(host, t, a, b');
      ListFoldSnoc(host, t, a + b', last);
      ListFoldSnoc(host, t, b', last);
      var x, y, z := ListFold(host, t, a), ListFold(host, t, b'), Contribution(MarshallValue(host, t.node.memberType, last));
      if x.Ok? && y.Ok? && z.Ok? {
        assert (x.value + y.value) + z.value == x.value + (y.value + z.value);
      }
    }
  }

  /** One element appended: its contribution follows the earlier result. */
  lemma ListFoldSnoc(host: Host, t: SchemaType, items: seq<JsValue>, x: JsValue)
    requires t.node.ListType?
    ensures ListFold(host, t, items + [x]) == Then(ListFold(host, t, items), Contribution(MarshallValue(host, t.node.memberType, x)))
  {
    assert (items + [x])[..|items|] == items;
    if ListFold(host, t, items).Ok? {
      assert ListFold(host, t, items).value + [] == ListFold(host, t, items).value;
    }
  }

  /** A List element that marshals to undefined is dropped; any other keeps its place. */
  lemma ListFoldSingle(host: Host, t: SchemaType, x: JsValue)
    requires t.node.ListType?
    ensures ListFold(host, t, [x]) == Contribution(MarshallValue(host, t.node.memberType, x))
  {
    ListFoldSnoc(host, t, [], x);
    assert [] + [x] == [x];
    var c := Contribution(MarshallValue(host, t.node.memberType, x));
    if c.Ok? {
      assert [] + c.value == c.value;
    }
  }

  /** Every List element marshalled with `memberType`. */
  function ListResults(host: Host, t: SchemaType, items: seq<JsValue>): (rs: seq<Marshalled>)
    requires t.node.ListType?
    ensures |rs| == |items| && forall i :: 0 <= i < |items| ==> rs[i] == MarshallValue(host, t.node.memberType, items[i])
  {
    seq(|items|, i requires 0 <= i < |items| => MarshallValue(host, t.node.memberType, items[i]))
  }

  /** The List branch keeps the defined marshalled elements in order. */
  lemma {:induction false} ListFoldGathers(host: Host, t: SchemaType, items: seq<JsValue>)
    requires t.node.ListType?
    ensures ListFold(host, t, items) == Gather(ListResults(host, t, items))
    decreases |items|
  {
    if |items| > 0 {
      var n := |items| - 1;
      ListFoldGathers(host, t, items[..n]);
      assert ListResults(host, t, items)[..n] == ListResults(host, t, items[..n]);
    }
  }

  /** When every element marshals to a defined value, the List branch keeps all
      of them, element for element. */
  lemma ListFoldAllDefined(host: Host, t: SchemaType, items: seq<JsValue>)
    requires t.node.ListType?
    requires forall i :: 0 <= i < |items| ==> MarshallValue(host, t.node.memberType, items[i]).Ok?
                                               && MarshallValue(host, t.node.memberType, items[i]).value.Some?
    ensures ListFold(host, t, items).Ok? && |ListFold(host, t, items).value| == |items|
    ensures forall i :: 0 <= i < |items| ==>
      ListFold(host, t, items).value[i] == MarshallValue(host, t.node.memberType, items[i]).value.value
  {
    ListFoldGathers(host, t, items);
    GatherAll(ListResults(host, t, items));
  }

  /** Every tuple member with the marshalled `input[i]`. */
  function TupleResults(host: Host, t: SchemaType, members: seq<SchemaType>, input: JsValue): (rs: seq<Marshalled>)
    requires t.node.TupleType? && members <= t.node.tupleMembers
    ensures |rs| == |members|
    ensures forall i :: 0 <= i < |members| ==> rs[i] == TupleMember(host, t, members[i], input, i)
  {
    seq(|members|, i requires 0 <= i < |members| => TupleMember(host, t, members[i], input, i))
  }

  /** The Tuple branch keeps the defined marshalled members in order. */
  lemma {:induction false} TupleFoldGathers(host: Host, t: SchemaType, members: seq<SchemaType>, input: JsValue)
    requires t.node.TupleType? && members <= t.node.tupleMembers
    ensures TupleFold(host, t, members, input) == Gather(TupleResults(host, t, members, input))
    decreases |members|
  {
    if |members| > 0 {
      var n := |members| - 1;
      TupleFoldGathers(host, t, members[..n], input);
      assert TupleResults(host, t, members, input)[..n] == TupleResults(host, t, members[..n], input);
    }
  }

  /** When every member marshals to a defined value, the Tuple branch keeps all
      of them, member `i` holding the marshalled `input[i]`. */
  lemma TupleFoldAllDefined(host: Host, t: SchemaType, members: seq<SchemaType>, input: JsValue)
    requires t.node.TupleType? && members <= t.node.tupleMembers
    requires input.Array? && |members| <= |input.elems|
    requires forall i :: 0 <= i < |members| ==> MarshallValue(host, members[i], input.elems[i]).Ok?
                                                 && MarshallValue(host, members[i], input.elems[i]).value.Some?
    ensures TupleFold(host, t, members, input).Ok? && |TupleFold(host, t, members, input).value| == |members|
    ensures forall i :: 0 <= i < |members| ==>
      TupleFold(host, t, members, input).value[i] == MarshallValue(host, members[i], input.elems[i]).value.value
  {
    var rs := TupleResults(host, t, members, input);
    TupleFoldGathers(host, t, members, input);
    assert forall i :: 0 <= i < |members| ==> rs[i] == MarshallValue(host, members[i], input.elems[i]);
    GatherAll(rs);
  }

  /** `marshallSet` keeps every non-empty marshalled member and nothing that is
      not one, and collects nothing exactly when every member is empty. */
  lemma {:induction false} CollectFoldMembers<E>(members: seq<JsValue>, marshaller: JsValue -> Result<E>, isEmpty: E -> bool)
    requires forall i :: 0 <= i < |members| ==> marshaller(members[i]).Ok?
    ensures CollectFold(members, marshaller, isEmpty).Ok?
    ensures forall i :: 0 <= i < |members| && !isEmpty(marshaller(members[i]).value) ==>
      marshaller(members[i]).value in CollectFold(members, marshaller, isEmpty).value
    ensures forall x :: x in CollectFold(members, marshaller, isEmpty).value ==>
      exists i :: 0 <= i < |members| && marshaller(members[i]) == Ok(x)
    ensures |CollectFold(members, marshaller, isEmpty).value| == 0 <==>
      forall i :: 0 <= i < |members| ==> isEmpty(marshaller(members[i]).value)
    decreases |members|
  {
    if |members| > 0 {
      var n := |members| - 1;
      var pre := members[..n];
      CollectFoldMembers(pre, marshaller, isEmpty);
      var c := CollectFold(pre, marshaller, isEmpty).value;
      var x := marshaller(members[n]).value;
      var r := CollectFold(members, marshaller, isEmpty).value;
      assert r == if isEmpty(x) then c else c + [x];
      forall i | 0 <= i < |members| && !isEmpty(marshaller(members[i]).value)
        ensures marshaller(members[i]).value in r
      {
        if i < n {
          assert members[i] == pre[i];
        }
      }
      forall y | y in r
        ensures exists i :: 0 <= i < |members| && marshaller(members[i]) == Ok(y)
      {
        if y in c {
          var i :| 0 <= i < |pre| && marshaller(pre[i]) == Ok(y);
          assert members[i] == pre[i];
        } else {
          assert marshaller(members[n]) == Ok(y);
        }
      }
      forall i | 0 <= i < |members|
        ensures |r| == 0 ==> isEmpty(marshaller(members[i]).value)
      {
        assert !isEmpty(marshaller(members[i]).value) ==> marshaller(members[i]).value in r;
      }
      if |r| > 0 {
        assert r[0] in r;
        var i :| 0 <= i < |members| && marshaller(members[i]) == Ok(r[0]);
        assert !isEmpty(marshaller(members[i]).value);
      }
    }
  }

  /** A String or Number set whose members all convert is stored as its
      converted members under `SS` or `NS`, empty strings dropped from a
      String set, or as `NULL` when none is left. */
  lemma TextSetMembers(host: Host, memberType: string, members: seq<JsValue>)
    requires memberType == StringMember || memberType == NumberMember
    requires forall i :: 0 <= i < |members| ==> !members[i].Null? && !members[i].Undefined?
    ensures MarshallSetNode(host, memberType, JsSet(members)).Ok?
    ensures MarshallSetNode(host, memberType, JsSet(members)).value.Some?
    ensures var a := MarshallSetNode(host, memberType, JsSet(members)).value.value;
      (a.NULL? <==> forall i :: 0 <= i < |members| ==> memberType == StringMember && ToText(host, members[i]).value == "") &&
      (a.SS? ==> memberType == StringMember && forall s :: s in a.strs ==>
        s != "" && exists i :: 0 <= i < |members| && ToText(host, members[i]) == Ok(s)) &&
      (a.NS? ==> memberType == NumberMember && forall s :: s in a.nums ==>
        exists i :: 0 <= i < |members| && ToText(host, members[i]) == Ok(s))
  {
    if memberType == StringMember {
      CollectFoldMembers(members, TextMarshaller(host), IsEmptyText);
    } else {
      CollectFoldMembers(members, TextMarshaller(host), NeverEmpty);
    }
  }

  /** A Date node writes whole epoch seconds: a number is taken as seconds, a
      `Date` is rounded down to the second, and anything that is not a string,
      number or date throws. */
  lemma MarshallDateSeconds(host: Host, v: JsValue)
    ensures v.Num? && -MaxTime <= v.n * 1000 <= MaxTime ==> MarshallDate(host, v) == Ok(Some(N(IntToString(v.n))))
    ensures v.Date? ==> MarshallDate(host, v) == Ok(Some(N(IntToString(v.ms / 1000))))
    ensures !(v.Str? || v.Num? || v.NaN? || v.Date? || v.InvalidDate?) ==>
      MarshallDate(host, v) == Err(NotADate)
  {
    if v.Num? {
      assert v.n * 1000 / 1000 == v.n;
    }
  }

  /** With distinct attribute names and every property defined, `marshallItem`
      stores one attribute per property, in schema order. */
  lemma ItemFoldAllDefined(host: Host, parent: SchemaType, schema: Schema, input: JsValue)
    requires parent.node.DocumentType? && schema <= parent.node.members
    requires Distinct(AttributeNames(schema))
    requires forall i :: 0 <= i < |schema| ==> FieldValue(host, schema[i].0, schema[i].1, input).Ok?
                                                && FieldValue(host, schema[i].0, schema[i].1, input).value.Some?
    ensures ItemFold(host, parent, schema, input).Ok?
    ensures Keys(ItemFold(host, parent, schema, input).value) == AttributeNames(schema)
    ensures forall i :: 0 <= i < |schema| ==>
      ItemFold(host, parent, schema, input).value[i].1 == FieldValue(host, schema[i].0, schema[i].1, input).value.value
  {
    ItemFoldAssembles(host, parent, schema, input);
    AssembleAll(FieldResults(host, schema, input));
  }

  /** Every Map entry with its key and marshalled value. */
  function EntryResults(host: Host, t: SchemaType, entries: seq<JsValue>): (fs: seq<(string, Marshalled)>)
    requires t.node.MapType?
    ensures |fs| == |entries| && forall i :: 0 <= i < |entries| ==> fs[i] == EntryResult(host, t, entries[i])
  {
    seq(|entries|, i requires 0 <= i < |entries| => EntryResult(host, t, entries[i]))
  }

  /** The Map branch over an iterable stores each entry's defined value under
      its key, in order. */
  lemma {:induction false} MapEntriesAssembles(host: Host, t: SchemaType, entries: seq<JsValue>)
    requires t.node.MapType?
    ensures MapEntriesFold(host, t, entries) == Assemble(EntryResults(host, t, entries))
    decreases |entries|
  {
    if |entries| > 0 {
      var n := |entries| - 1;
      var fs := EntryResults(host, t, entries);
      MapEntriesAssembles(host, t, entries[..n]);
      assert fs[..n] == EntryResults(host, t, entries[..n]);
      assert fs[n] == EntryResult(host, t, entries[n]);
    }
  }

  /** A `Map` whose keys are distinct strings and whose values all marshal to
      defined values is stored entry for entry, keyed by its keys. */
  lemma MapEntriesAllDefined(host: Host, t: SchemaType, entries: seq<JsValue>)
    requires t.node.MapType?
    requires forall i :: 0 <= i < |entries| ==> entries[i].Array? && |entries[i].elems| == 2 && entries[i].elems[0].Str?
    requires forall i, j :: 0 <= i < j < |entries| ==> entries[i].elems[0] != entries[j].elems[0]
    requires forall i :: 0 <= i < |entries| ==> MarshallValue(host, t.node.memberType, entries[i].elems[1]).Ok?
                                                 && MarshallValue(host, t.node.memberType, entries[i].elems[1]).value.Some?
    ensures MapEntriesFold(host, t, entries).Ok? && |MapEntriesFold(host, t, entries).value| == |entries|
    ensures forall i :: 0 <= i < |entries| ==>
      MapEntriesFold(host, t, entries).value[i] ==
      (entries[i].elems[0].s, MarshallValue(host, t.node.memberType, entries[i].elems[1]).value.value)
  {
    var fs := EntryResults(host, t, entries);
    MapEntriesAssembles(host, t, entries);
    assert forall i :: 0 <= i < |entries| ==> fs[i] == (entries[i].elems[0].s, MarshallValue(host, t.node.memberType, entries[i].elems[1]));
    AssembleAll(fs);
    var r := Assemble(fs).value;
    assert |Keys(r)| == |Keys(fs)|;
    assert forall i :: 0 <= i < |entries| ==> Keys(r)[i] == r[i].0;
  }

  /** When no member is empty, `marshallSet` keeps every marshalled member, in order. */
  lemma {:induction false} CollectFoldAllKept<E>(members: seq<JsValue>, marshaller: JsValue -> Result<E>, isEmpty: E -> bool)
    requires forall i :: 0 <= i < |members| ==> marshaller(members[i]).Ok? && !isEmpty(marshaller(members[i]).value)
    ensures CollectFold(members, marshaller, isEmpty).Ok?
    ensures |CollectFold(members, marshaller, isEmpty).value| == |members|
    ensures forall i :: 0 <= i < |members| ==> CollectFold(members, marshaller, isEmpty).value[i] == marshaller(members[i]).value
    decreases |members|
  {
    if |members| > 0 {
      CollectFoldAllKept(members[..|members| - 1], marshaller, isEmpty);
    }
  }
}
