/** The schema-driven codec's two halves invert each other: a value that fits
    its schema node is marshalled to an attribute value that unmarshalls back
    to it, with the empty-value conventions (`''`, an empty set and empty bytes
    all stored as `NULL`) undone on the way back. */
module RoundTrip {
  import opened Wrappers
  import opened Text
  import opened Values
  import opened BinarySets
  import opened SchemaTypes
  import AutoMarshaller
  import DM = DataMarshall
  import DU = DataUnmarshall

  /** Options of an Any, Collection or Hash node that both directions read
      alike and under which the auto-marshaller is lossless. */
  predicate FixedOptions(opts: MarshallingOptions)
  {
    opts.onEmpty.Some? && opts.onInvalid.Some? && opts.unwrapNumbers.Some?
    && AutoMarshaller.Lossless(DU.UnmarshallOptions(opts))
  }

  /** The values a node reproduces exactly. Numbers are integral, dates whole
      seconds within the valid range, maps keyed by distinct strings, documents
      hold exactly their schema's properties in schema order (with distinct
      property and attribute names), and sets hold distinct members of their
      kind, non-empty for strings and bytes. */
  predicate Fits(t: SchemaType, v: JsValue)
    decreases t
  {
    match t.node
    case StringType(_) => v.Str?
    case NumberType(_, _) => v.Num?
    case BooleanType => v.Bool?
    case NullType => v.Null?
    case BinaryType(_) => v.Binary?
    case DateType(_) => v.Date? && v.ms % 1000 == 0 && -DM.MaxTime <= v.ms <= DM.MaxTime
    case ListType(memberType) =>
      v.Array? && forall i :: 0 <= i < |v.elems| ==> Fits(memberType, v.elems[i])
    case MapType(memberType) =>
      v.JsMap?
      && (forall i :: 0 <= i < |v.entries| ==> v.entries[i].0.Str? && Fits(memberType, v.entries[i].1))
      && (forall i, j :: 0 <= i < j < |v.entries| ==> v.entries[i].0 != v.entries[j].0)
    case TupleType(members) =>
      v.Array? && |v.elems| == |members| && forall i :: 0 <= i < |members| ==> Fits(members[i], v.elems[i])
    case DocumentType(members) =>
      v.Object? && |v.props| == |members| && DistinctKeys(members) && Distinct(DM.AttributeNames(members))
      && forall i :: 0 <= i < |members| ==> v.props[i].0 == members[i].0 && Fits(members[i].1, v.props[i].1)
    case SetType(memberType) =>
      (memberType == StringMember && v.JsSet? && Distinct(v.members)
        && forall i :: 0 <= i < |v.members| ==> v.members[i].Str? && v.members[i].s != "")
      || (memberType == NumberMember && v.JsSet? && Distinct(v.members)
        && forall i :: 0 <= i < |v.members| ==> v.members[i].Num?)
      || (memberType == BinaryMember && v.BinSet? && Distinct(v.values)
        && forall i :: 0 <= i < |v.values| ==> |v.values[i]| > 0)
    case AnyType(opts) => FixedOptions(opts) && AutoMarshaller.Plain(v)
    case HashType(opts) => FixedOptions(opts) && v.Object? && AutoMarshaller.Plain(v)
    case CollectionType(opts) => FixedOptions(opts) && v.Array? && AutoMarshaller.Plain(v)
    case CustomType(_, _, marshall, unmarshall) => !v.Undefined? && unmarshall(Some(marshall(v))) == v
    case UnrecognizedType(_) => false
  }

  /** Marshalling a fitting value gives an attribute value, and unmarshalling
      that attribute value gives the value back. */
  lemma {:induction false} ValueRoundTrip(host: DM.Host, t: SchemaType, v: JsValue)
    requires Fits(t, v)
    ensures DM.MarshallValue(host, t, v).Ok? && DM.MarshallValue(host, t, v).value.Some?
    ensures DU.UnmarshallValue(t, DM.MarshallValue(host, t, v).value.value) == Ok(v)
    decreases t
  {
    assert !v.Undefined?;
    assert DM.MarshallValue(host, t, v) == DM.MarshallNode(host, t, v);
    if t.node.ListType? || t.node.MapType? || t.node.TupleType? || t.node.DocumentType? {
      ContainerRoundTrip(host, t, v);
    } else {
      LeafRoundTrip(host, t, v);
    }
  }

  /** The whole-item round trip: an object holding exactly a schema's
      properties, each fitting its node, is marshalled by `marshallItem` to an
      attribute map that `unmarshallItem` turns back into the same object. */
  lemma ItemRoundTrip(host: DM.Host, schema: Schema, props: seq<(string, JsValue)>)
    requires Fits(Root(schema), Object(props))
    ensures DM.MarshallItemSpec(host, schema, Object(props)).Ok?
    ensures DU.UnmarshallItemSpec(schema, DM.MarshallItemSpec(host, schema, Object(props)).value) == Ok(props)
  {
    ValueRoundTrip(host, Root(schema), Object(props));
  }

  // ---------------------------------------------------------------------------
  // The cases of `ValueRoundTrip`

  /** The nodes holding other nodes. */
  lemma {:induction false} ContainerRoundTrip(host: DM.Host, t: SchemaType, v: JsValue)
    requires Fits(t, v)
    requires t.node.ListType? || t.node.MapType? || t.node.TupleType? || t.node.DocumentType?
    ensures DM.MarshallNode(host, t, v).Ok? && DM.MarshallNode(host, t, v).value.Some?
    ensures DU.UnmarshallValue(t, DM.MarshallNode(host, t, v).value.value) == Ok(v)
    decreases t, 1
  {
    if t.node.ListType? {
      ListRoundTrip(host, t, v);
    } else if t.node.MapType? {
      MapRoundTrip(host, t, v);
    } else if t.node.TupleType? {
      TupleRoundTrip(host, t, v);
    } else {
      DocumentRoundTrip(host, t, v);
    }
  }

  /** The nodes holding no other node. */
  lemma LeafRoundTrip(host: DM.Host, t: SchemaType, v: JsValue)
    requires Fits(t, v)
    requires !(t.node.ListType? || t.node.MapType? || t.node.TupleType? || t.node.DocumentType?)
    ensures DM.MarshallNode(host, t, v).Ok? && DM.MarshallNode(host, t, v).value.Some?
    ensures DU.UnmarshallValue(t, DM.MarshallNode(host, t, v).value.value) == Ok(v)
  {
    if t.node.DateType? {
      DateRoundTrip(host, t, v);
    } else if t.node.SetType? {
      SetRoundTrip(host, t, v);
    } else if t.node.AnyType? {
      AnyRoundTrip(host, t, v);
    } else if t.node.HashType? {
      HashRoundTrip(host, t, v);
    } else if t.node.CollectionType? {
      CollectionRoundTrip(host, t, v);
    } else {
      ScalarRoundTrip(host, t, v);
    }
  }

  lemma ScalarRoundTrip(host: DM.Host, t: SchemaType, v: JsValue)
    requires Fits(t, v)
    requires t.node.StringType? || t.node.NumberType? || t.node.BooleanType? || t.node.NullType?
             || t.node.BinaryType? || t.node.CustomType?
    ensures DM.MarshallNode(host, t, v).Ok? && DM.MarshallNode(host, t, v).value.Some?
    ensures DU.UnmarshallValue(t, DM.MarshallNode(host, t, v).value.value) == Ok(v)
  {
    if t.node.NumberType? {
      ParseIntToString(v.n);
    }
  }

  lemma DateRoundTrip(host: DM.Host, t: SchemaType, v: JsValue)
    requires t.node.DateType? && Fits(t, v)
    ensures DM.MarshallNode(host, t, v).Ok? && DM.MarshallNode(host, t, v).value.Some?
    ensures DU.UnmarshallValue(t, DM.MarshallNode(host, t, v).value.value) == Ok(v)
  {
    var seconds := v.ms / 1000;
    assert seconds * 1000 == v.ms;
    ParseIntToString(seconds);
    assert DM.MarshallNode(host, t, v) == Ok(Some(N(IntToString(seconds))));
    assert NumberOf(IntToString(seconds)) == Num(seconds);
  }

  lemma {:induction false} ListRoundTrip(host: DM.Host, t: SchemaType, v: JsValue)
    requires t.node.ListType? && Fits(t, v)
    ensures DM.MarshallNode(host, t, v).Ok? && DM.MarshallNode(host, t, v).value.Some?
    ensures DU.UnmarshallValue(t, DM.MarshallNode(host, t, v).value.value) == Ok(v)
    decreases t, 0
  {
    var memberType := t.node.memberType;
    var es := v.elems;
    forall i | 0 <= i < |es|
      ensures DM.MarshallValue(host, memberType, es[i]).Ok? && DM.MarshallValue(host, memberType, es[i]).value.Some?
      ensures DU.UnmarshallValue(memberType, DM.MarshallValue(host, memberType, es[i]).value.value) == Ok(es[i])
    {
      ValueRoundTrip(host, memberType, es[i]);
    }
    DM.ListFoldAllDefined(host, t, es);
    var vs := DM.ListFold(host, t, es).value;
    assert DM.MarshallNode(host, t, v) == Ok(Some(L(vs)));
    DU.ListFoldAll(t, vs);
    assert DU.ListFold(t, vs).value == es;
  }

  lemma {:induction false} MapRoundTrip(host: DM.Host, t: SchemaType, v: JsValue)
    requires t.node.MapType? && Fits(t, v)
    ensures DM.MarshallNode(host, t, v).Ok? && DM.MarshallNode(host, t, v).value.Some?
    ensures DU.UnmarshallValue(t, DM.MarshallNode(host, t, v).value.value) == Ok(v)
    decreases t, 0
  {
    var memberType := t.node.memberType;
    var es := v.entries;
    var pairs := DM.Iterate(v).value;
    assert |pairs| == |es| && forall i :: 0 <= i < |es| ==> pairs[i] == Array([es[i].0, es[i].1]);
    forall i | 0 <= i < |es|
      ensures DM.MarshallValue(host, memberType, es[i].1).Ok? && DM.MarshallValue(host, memberType, es[i].1).value.Some?
      ensures DU.UnmarshallValue(memberType, DM.MarshallValue(host, memberType, es[i].1).value.value) == Ok(es[i].1)
    {
      ValueRoundTrip(host, memberType, es[i].1);
    }
    DM.MapEntriesAllDefined(host, t, pairs);
    var m := DM.MapEntriesFold(host, t, pairs).value;
    assert DM.MarshallNode(host, t, v) == Ok(Some(M(m)));
    DU.MapFoldAll(t, m);
    assert DU.MapFold(t, m).value == es;
  }

  lemma {:induction false} TupleRoundTrip(host: DM.Host, t: SchemaType, v: JsValue)
    requires t.node.TupleType? && Fits(t, v)
    ensures DM.MarshallNode(host, t, v).Ok? && DM.MarshallNode(host, t, v).value.Some?
    ensures DU.UnmarshallValue(t, DM.MarshallNode(host, t, v).value.value) == Ok(v)
    decreases t, 0
  {
    var members := t.node.tupleMembers;
    var es := v.elems;
    forall i | 0 <= i < |members|
      ensures DM.MarshallValue(host, members[i], es[i]).Ok? && DM.MarshallValue(host, members[i], es[i]).value.Some?
      ensures DU.UnmarshallValue(members[i], DM.MarshallValue(host, members[i], es[i]).value.value) == Ok(es[i])
    {
      ValueRoundTrip(host, members[i], es[i]);
    }
    DM.TupleFoldAllDefined(host, t, members, v);
    var vs := DM.TupleFold(host, t, members, v).value;
    assert DM.MarshallNode(host, t, v) == Ok(Some(L(vs)));
    DU.TupleFoldAll(t, members, vs);
    assert DU.TupleFold(t, members, vs).value == es;
  }

  lemma {:induction false} DocumentRoundTrip(host: DM.Host, t: SchemaType, v: JsValue)
    requires t.node.DocumentType? && Fits(t, v)
    ensures DM.MarshallNode(host, t, v).Ok? && DM.MarshallNode(host, t, v).value.Some?
    ensures DU.UnmarshallValue(t, DM.MarshallNode(host, t, v).value.value) == Ok(v)
    decreases t, 0
  {
    var members := t.node.members;
    var ps := v.props;
    assert DistinctKeys(ps) by {
      assert forall i :: 0 <= i < |ps| ==> ps[i].0 == members[i].0;
    }
    forall i | 0 <= i < |members|
      ensures DM.FieldValue(host, members[i].0, members[i].1, v) == DM.MarshallValue(host, members[i].1, ps[i].1)
      ensures DM.MarshallValue(host, members[i].1, ps[i].1).Ok? && DM.MarshallValue(host, members[i].1, ps[i].1).value.Some?
      ensures DU.UnmarshallValue(members[i].1, DM.MarshallValue(host, members[i].1, ps[i].1).value.value) == Ok(ps[i].1)
    {
      GetDistinct(ps, i);
      ValueRoundTrip(host, members[i].1, ps[i].1);
    }
    DM.ItemFoldAllDefined(host, t, members, v);
    var m := DM.ItemFold(host, t, members, v).value;
    assert DM.MarshallNode(host, t, v) == Ok(Some(M(m)));
    assert DistinctKeys(m) by {
      assert Keys(m) == DM.AttributeNames(members);
    }
    forall i | 0 <= i < |members|
      ensures DU.FieldValue(members[i].0, members[i].1, m) == Ok(Some(ps[i].1))
    {
      assert Keys(m)[i] == NameAt(members, i);
      GetDistinct(m, i);
    }
    DU.ItemFoldAll(t, members, m);
    var back := DU.ItemFold(t, members, m).value;
    assert Keys(back) == Keys(ps);
    assert back == ps;
  }

  lemma SetRoundTrip(host: DM.Host, t: SchemaType, v: JsValue)
    requires t.node.SetType? && Fits(t, v)
    ensures DM.MarshallNode(host, t, v).Ok? && DM.MarshallNode(host, t, v).value.Some?
    ensures DU.UnmarshallValue(t, DM.MarshallNode(host, t, v).value.value) == Ok(v)
  {
    var memberType := t.node.setMemberType;
    assert DM.MarshallNode(host, t, v) == DM.MarshallSetNode(host, memberType, v);
    if memberType == StringMember {
      StringSetRoundTrip(host, t, v.members);
    } else if memberType == NumberMember {
      NumberSetRoundTrip(host, t, v.members);
    } else {
      BinarySetRoundTrip(host, t, v.values);
    }
  }

  lemma StringSetRoundTrip(host: DM.Host, t: SchemaType, ms: seq<JsValue>)
    requires t.node == SetType(StringMember) && Distinct(ms)
    requires forall i :: 0 <= i < |ms| ==> ms[i].Str? && ms[i].s != ""
    ensures DM.MarshallSetNode(host, StringMember, JsSet(ms)).Ok? && DM.MarshallSetNode(host, StringMember, JsSet(ms)).value.Some?
    ensures DU.UnmarshallValue(t, DM.MarshallSetNode(host, StringMember, JsSet(ms)).value.value) == Ok(JsSet(ms))
  {
    DM.CollectFoldAllKept(ms, DM.TextMarshaller(host), DM.IsEmptyText);
    var strs := DM.CollectFold(ms, DM.TextMarshaller(host), DM.IsEmptyText).value;
    if |ms| > 0 {
      assert seq(|strs|, i requires 0 <= i < |strs| => Str(strs[i])) == ms;
      AutoMarshaller.SetOfDistinct(ms);
    }
  }

  lemma NumberSetRoundTrip(host: DM.Host, t: SchemaType, ms: seq<JsValue>)
    requires t.node == SetType(NumberMember) && Distinct(ms)
    requires forall i :: 0 <= i < |ms| ==> ms[i].Num?
    ensures DM.MarshallSetNode(host, NumberMember, JsSet(ms)).Ok? && DM.MarshallSetNode(host, NumberMember, JsSet(ms)).value.Some?
    ensures DU.UnmarshallValue(t, DM.MarshallSetNode(host, NumberMember, JsSet(ms)).value.value) == Ok(JsSet(ms))
  {
    DM.CollectFoldAllKept(ms, DM.TextMarshaller(host), DM.NeverEmpty);
    var nums := DM.CollectFold(ms, DM.TextMarshaller(host), DM.NeverEmpty).value;
    if |ms| > 0 {
      NumberTextsRead(host, ms, nums);
      AutoMarshaller.SetOfDistinct(ms);
    }
  }

  /** The texts `toString()` gives for numbers read back as those numbers. */
  lemma NumberTextsRead(host: DM.Host, ms: seq<JsValue>, nums: seq<string>)
    requires forall i :: 0 <= i < |ms| ==> ms[i].Num?
    requires |nums| == |ms| && forall i :: 0 <= i < |ms| ==> DM.ToText(host, ms[i]) == Ok(nums[i])
    ensures seq(|nums|, i requires 0 <= i < |nums| => NumberOf(nums[i])) == ms
  {
    forall i | 0 <= i < |ms|
      ensures NumberOf(nums[i]) == ms[i]
    {
      NumberOfText(ms[i]);
    }
  }

  lemma BinarySetRoundTrip(host: DM.Host, t: SchemaType, bs: seq<seq<bv8>>)
    requires t.node == SetType(BinaryMember) && Distinct(bs)
    requires forall i :: 0 <= i < |bs| ==> |bs[i]| > 0
    ensures DM.MarshallSetNode(host, BinaryMember, BinSet(bs)).Ok? && DM.MarshallSetNode(host, BinaryMember, BinSet(bs)).value.Some?
    ensures DU.UnmarshallValue(t, DM.MarshallSetNode(host, BinaryMember, BinSet(bs)).value.value) == Ok(BinSet(bs))
  {
    var vs := DM.BinaryValues(bs);
    DM.CollectFoldAllKept(vs, DM.BytesMarshaller(host), DM.IsEmptyBytes);
    assert DM.CollectFold(vs, DM.BytesMarshaller(host), DM.IsEmptyBytes).value == bs;
    BinarySetOfDistinct(bs);
  }

  lemma AnyRoundTrip(host: DM.Host, t: SchemaType, v: JsValue)
    requires t.node.AnyType? && Fits(t, v)
    ensures DM.MarshallNode(host, t, v).Ok? && DM.MarshallNode(host, t, v).value.Some?
    ensures DU.UnmarshallValue(t, DM.MarshallNode(host, t, v).value.value) == Ok(v)
  {
    var o := DU.UnmarshallOptions(t.node.options);
    assert DM.MarshallOptions(t.node.options) == o;
    AutoMarshaller.RoundTrip(o, v);
  }

  lemma HashRoundTrip(host: DM.Host, t: SchemaType, v: JsValue)
    requires t.node.HashType? && Fits(t, v)
    ensures DM.MarshallNode(host, t, v).Ok? && DM.MarshallNode(host, t, v).value.Some?
    ensures DU.UnmarshallValue(t, DM.MarshallNode(host, t, v).value.value) == Ok(v)
  {
    var o := DU.UnmarshallOptions(t.node.options);
    assert DM.MarshallOptions(t.node.options) == o;
    assert DistinctKeys(v.props) && forall i :: 0 <= i < |v.props| ==> AutoMarshaller.Plain(v.props[i].1);
    AutoMarshaller.RoundTripObject(o, v, v.props, Unknown);
    var m := AutoMarshaller.ObjectSpec(o, v, v.props).value;
    assert AutoMarshaller.MarshallValue(o, v) == Ok(Some(M(m)));
    AutoMarshaller.RoundTrip(o, v);
  }

  lemma CollectionRoundTrip(host: DM.Host, t: SchemaType, v: JsValue)
    requires t.node.CollectionType? && Fits(t, v)
    ensures DM.MarshallNode(host, t, v).Ok? && DM.MarshallNode(host, t, v).value.Some?
    ensures DU.UnmarshallValue(t, DM.MarshallNode(host, t, v).value.value) == Ok(v)
  {
    var o := DU.UnmarshallOptions(t.node.options);
    assert DM.MarshallOptions(t.node.options) == o;
    AutoMarshaller.RoundTrip(o, v);
    AutoMarshaller.RoundTripList(o, v, v.elems, Unknown);
    var vs := AutoMarshaller.ListSpec(o, v, v.elems).value;
    assert AutoMarshaller.MarshallValue(o, v) == Ok(Some(L(vs)));
  }
}
