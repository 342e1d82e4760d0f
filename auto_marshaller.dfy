/** The policy-driven auto-marshaller: converts arbitrary JavaScript values to
    DynamoDB attribute values by run-time type detection, and back. */
module AutoMarshaller {
  import opened Wrappers
  import opened Text
  import opened Values
  import opened BinarySets

  const MixedSet := "Sets must be composed of strings, binary values, or numbers"

  /** What to do with "empty" data DynamoDB would reject (`''`, zero-length binary, empty sets). */
  datatype EmptyStrategy = Omit | Nullify | Leave

  /** What to do with values that have no DynamoDB representation (functions, symbols, ...). */
  datatype InvalidStrategy = OmitInvalid | Throw

  datatype Options = Options(onEmpty: EmptyStrategy, onInvalid: InvalidStrategy, unwrapNumbers: bool)

  /** The constructor: an option left unspecified takes its default. */
  function NewMarshaller(onEmpty: Option<EmptyStrategy>, onInvalid: Option<InvalidStrategy>, unwrapNumbers: Option<bool>)
    : Options
  {
    Options(onEmpty.GetOr(Leave), onInvalid.GetOr(Throw), unwrapNumbers.GetOr(false))
  }

  /** The outcome of marshalling one value: a thrown error, `undefined`, or an attribute value. */
  type Marshalled = Result<Option<AttributeValue>>

  // ---------------------------------------------------------------------------
  // Set member kinds

  datatype SetKind = KindString | KindNumber | KindBinary | KindUndefined | KindUnknown

  /** `getSetType`: the kind of a would-be set member. */
  function SetKindOf(v: JsValue): SetKind
  {
    match v
    case Str(_) => KindString
    case Num(_) => KindNumber
    case NaN => KindNumber
    case BigInt(_) => KindNumber
    case Undefined => KindUndefined
    case Binary(_) => KindBinary
    case _ => KindUnknown
  }

  function KindName(k: SetKind): string
  {
    match k
    case KindString => "string"
    case KindNumber => "number"
    case KindBinary => "binary"
    case KindUndefined => "undefined"
    case KindUnknown => "unknown"
  }

  /** `isStringEmpty`, `isNumberEmpty` (never) and `isBinaryEmpty`. */
  predicate IsEmptyMember(v: JsValue)
  {
    (v.Str? && |v.s| == 0) || (v.Binary? && |v.bytes| == 0)
  }

  // ---------------------------------------------------------------------------
  // Marshalling

  /** `marshallValue`: dispatch on `typeof`. */
  function MarshallValue(o: Options, v: JsValue): (r: Marshalled)
    decreases v, 2
  {
    match v
    case Bool(b) => Ok(Some(BOOL(b)))
    case Num(_) => Ok(Some(N(NumberText(v))))
    case NaN => Ok(Some(N(NumberText(v))))
    case BigInt(_) => Ok(Some(N(NumberText(v))))
    case Str(s) => if s != "" then Ok(Some(S(s))) else Ok(HandleEmptyString(o, s))
    case Undefined => Ok(None)
    case Function(_) => InvalidValue(o, v)
    case Symbol(_) => InvalidValue(o, v)
    case _ => MarshallComplexType(o, v)
  }

  /** The message thrown for a value of type `typeName` that cannot be stored. */
  function CannotSerialize(typeName: string): string
  {
    "Cannot serialize values of the " + typeName + " type"
  }

  /** A function or symbol: thrown under `throw`, dropped otherwise. */
  function InvalidValue(o: Options, v: JsValue): (r: Marshalled)
  {
    if o.onInvalid == Throw then Err(CannotSerialize(TypeOf(v))) else Ok(None)
  }

  /** `marshallComplexType`: the value's `typeof` is `"object"`. */
  function MarshallComplexType(o: Options, v: JsValue): (r: Marshalled)
    requires TypeOf(v) == "object"
    decreases v, 1
  {
    match v
    case Null => Ok(Some(NULL(true)))
    case Binary(b) => Ok(MarshallBinaryValue(o, b))
    case JsSet(ms) => MarshallSet(o, ms)
    case BinSet(bs) => MarshallSet(o, seq(|bs|, i requires 0 <= i < |bs| => Binary(bs[i])))
    case JsMap(es) =>
      (match MapSpec(o, v, es) case Ok(m) => Ok(Some(M(m))) case Err(e) => Err(e))
    case Array(es) =>
      (match ListSpec(o, v, es) case Ok(vs) => Ok(Some(L(vs))) case Err(e) => Err(e))
    case Object(ps) =>
      (match ObjectSpec(o, v, ps) case Ok(m) => Ok(Some(M(m))) case Err(e) => Err(e))
    case Date(_) => Ok(Some(M([])))
    case InvalidDate => Ok(Some(M([])))
  }

  /** `handleEmptyString`. */
  function HandleEmptyString(o: Options, s: string): Option<AttributeValue>
  {
    match o.onEmpty
    case Leave => Some(S(s))
    case Nullify => Some(NULL(true))
    case Omit => None
  }

  /** `marshallBinaryValue`. */
  function MarshallBinaryValue(o: Options, b: seq<bv8>): (r: Option<AttributeValue>)
    ensures |b| > 0 ==> r == Some(B(b))
  {
    if |b| > 0 || o.onEmpty == Leave then Some(B(b))
    else if o.onEmpty == Nullify then Some(NULL(true))
    else None
  }

  /** `marshallList`: the defined marshalled elements, in order. */
  function ListSpec(o: Options, ghost parent: JsValue, elems: seq<JsValue>): (r: Result<seq<AttributeValue>>)
    requires parent.Array? && elems <= parent.elems
    ensures r.Ok? ==> |r.value| <= |elems|
    decreases parent, 0, |elems|
  {
    if |elems| == 0 then Ok([])
    else
      match ListSpec(o, parent, elems[..|elems| - 1])
      case Err(e) => Err(e)
      case Ok(vs) =>
        match MarshallValue(o, elems[|elems| - 1])
        case Err(e) => Err(e)
        case Ok(None) => Ok(vs)
        case Ok(Some(a)) => Ok(vs + [a])
  }

  function NonStringKey(k: JsValue): string
  {
    "MapAttributeValues must have strings as keys; " + TypeOf(k) + " received instead"
  }

  /** `marshallMap`: string-keyed entries with defined marshalled values. */
  function MapSpec(o: Options, ghost parent: JsValue, entries: seq<(JsValue, JsValue)>)
    : (r: Result<seq<(string, AttributeValue)>>)
    requires parent.JsMap? && entries <= parent.entries
    decreases parent, 0, |entries|
  {
    if |entries| == 0 then Ok([])
    else
      match MapSpec(o, parent, entries[..|entries| - 1])
      case Err(e) => Err(e)
      case Ok(m) =>
        var (k, v) := entries[|entries| - 1];
        if !k.Str? then
          (if o.onInvalid == OmitInvalid then Ok(m) else Err(NonStringKey(k)))
        else
          match MarshallValue(o, v)
          case Err(e) => Err(e)
          case Ok(None) => Ok(m)
          case Ok(Some(a)) => Ok(Put(m, k.s, a))
  }

  /** `marshallObject`: own enumerable properties with defined marshalled values. */
  function ObjectSpec(o: Options, ghost parent: JsValue, props: seq<(string, JsValue)>)
    : (r: Result<seq<(string, AttributeValue)>>)
    requires parent.Object? && props <= parent.props
    decreases parent, 0, |props|
  {
    if |props| == 0 then Ok([])
    else
      match ObjectSpec(o, parent, props[..|props| - 1])
      case Err(e) => Err(e)
      case Ok(m) =>
        match MarshallValue(o, props[|props| - 1].1)
        case Err(e) => Err(e)
        case Ok(None) => Ok(m)
        case Ok(Some(a)) => Ok(Put(m, props[|props| - 1].0, a))
  }

  /** `marshallSet`: the kind of the first member decides the set's type. */
  function MarshallSet(o: Options, members: seq<JsValue>): (r: Marshalled)
  {
    var first := if |members| == 0 then Undefined else members[0];
    match SetKindOf(first)
    case KindUnknown =>
      if o.onInvalid == Throw then Err(MixedSet) else Ok(None)
    case KindUndefined =>
      if o.onEmpty == Nullify then Ok(Some(NULL(true))) else Ok(None)
    case _ => CollectSetSpec(o, members, SetKindOf(first))
  }

  function MismatchedMember(e: JsValue, kind: SetKind): string
  {
    "Unable to serialize " + TypeOf(e) + " as a member of a " + KindName(kind) + " set"
  }

  /** The members `collectSet` keeps: those of the set's kind that are not
      empty (or all of them under `leave`). */
  function CollectSpec(o: Options, members: seq<JsValue>, kind: SetKind): (r: Result<seq<JsValue>>)
    ensures r.Ok? ==> forall i :: 0 <= i < |r.value| ==> SetKindOf(r.value[i]) == kind
    ensures r.Ok? && o.onEmpty != Leave ==> forall i :: 0 <= i < |r.value| ==> !IsEmptyMember(r.value[i])
    decreases |members|
  {
    if |members| == 0 then Ok([])
    else
      match CollectSpec(o, members[..|members| - 1], kind)
      case Err(e) => Err(e)
      case Ok(vs) =>
        var e := members[|members| - 1];
        if SetKindOf(e) != kind then
          (if o.onInvalid == OmitInvalid then Ok(vs) else Err(MismatchedMember(e, kind)))
        else if !IsEmptyMember(e) || o.onEmpty == Leave then Ok(vs + [e])
        else Ok(vs)
  }

  /** The attribute holding the kept members under the set's tag, numbers stringified. */
  function Tagged(kind: SetKind, vs: seq<JsValue>): AttributeValue
    requires kind == KindString || kind == KindNumber || kind == KindBinary
    requires forall i :: 0 <= i < |vs| ==> SetKindOf(vs[i]) == kind
  {
    match kind
    case KindString => SS(seq(|vs|, i requires 0 <= i < |vs| && SetKindOf(vs[i]) == KindString => vs[i].s))
    case KindNumber => NS(seq(|vs|, i requires 0 <= i < |vs| && SetKindOf(vs[i]) == KindNumber => NumberText(vs[i])))
    case KindBinary => BS(seq(|vs|, i requires 0 <= i < |vs| && SetKindOf(vs[i]) == KindBinary => vs[i].bytes))
  }

  /** `collectSet`: a set with no kept members is `leave`-tagged, nullified or omitted. */
  function CollectSetSpec(o: Options, members: seq<JsValue>, kind: SetKind): (r: Marshalled)
    requires kind == KindString || kind == KindNumber || kind == KindBinary
  {
    match CollectSpec(o, members, kind)
    case Err(e) => Err(e)
    case Ok(vs) => Ok(FinishSet(o, kind, vs))
  }

  function FinishSet(o: Options, kind: SetKind, vs: seq<JsValue>): Option<AttributeValue>
    requires kind == KindString || kind == KindNumber || kind == KindBinary
    requires forall i :: 0 <= i < |vs| ==> SetKindOf(vs[i]) == kind
  {
    if |vs| > 0 || o.onEmpty == Leave then Some(Tagged(kind, vs))
    else if o.onEmpty == Nullify then Some(NULL(true))
    else None
  }

  /** `marshallItem`: the value must marshal to a map unless invalid input is omitted. */
  function MarshallItem(o: Options, item: JsValue): (r: Result<seq<(string, AttributeValue)>>)
  {
    match MarshallValue(o, item)
    case Err(e) => Err(e)
    case Ok(a) =>
      if a.Some? && a.value.M? then Ok(a.value.entries)
      else if o.onInvalid == Throw then Err(NotAnItem(TypeOf(item)))
      else Ok([])
  }

  /** The message for a value of type `typeName` that is not an attribute map. */
  function NotAnItem(typeName: string): string
  {
    "Cannot serialize " + typeName + " as an attribute map"
  }

  // ---------------------------------------------------------------------------
  // Unmarshalling

  /** `new Set(...)` over `xs`: later duplicates are dropped, first occurrences keep their order. */
  function SetOf(xs: seq<JsValue>): (r: seq<JsValue>)
    ensures forall x :: x in r <==> x in xs
    decreases |xs|
  {
    if |xs| == 0 then []
    else
      var prev := SetOf(xs[..|xs| - 1]);
      if xs[|xs| - 1] in prev then prev else prev + [xs[|xs| - 1]]
  }

  /** `unmarshallValue`. */
  function UnmarshallValue(o: Options, a: AttributeValue): (r: Result<JsValue>)
    decreases a, 1
  {
    match a
    case S(s) => Ok(Str(s))
    case N(n) => if o.unwrapNumbers then Ok(NumberOf(n)) else BigIntOf(n)
    case B(b) => Ok(Binary(b))
    case BOOL(f) => Ok(Bool(f))
    case NULL(_) => Ok(Null)
    case SS(ss) => Ok(JsSet(SetOf(seq(|ss|, i requires 0 <= i < |ss| => Str(ss[i])))))
    case NS(ns) =>
      if o.unwrapNumbers then Ok(JsSet(SetOf(seq(|ns|, i requires 0 <= i < |ns| => NumberOf(ns[i])))))
      else (match BigInts(ns) case Ok(xs) => Ok(JsSet(SetOf(xs))) case Err(e) => Err(e))
    case BS(bs) => Ok(BinSet(BinarySetOf(bs)))
    case L(list) =>
      (match UnmarshallList(o, a, list) case Ok(xs) => Ok(Array(xs)) case Err(e) => Err(e))
    case M(entries) =>
      (match UnmarshallEntries(o, a, entries) case Ok(ps) => Ok(Object(ps)) case Err(e) => Err(e))
    case Unknown => Ok(Object([]))
  }

  /** `item.NS.map(BigInt)`: the first unparsable member throws. */
  function BigInts(ns: seq<string>): (r: Result<seq<JsValue>>)
    ensures r.Ok? ==> |r.value| == |ns|
    decreases |ns|
  {
    if |ns| == 0 then Ok([])
    else
      match BigInts(ns[..|ns| - 1])
      case Err(e) => Err(e)
      case Ok(xs) =>
        match BigIntOf(ns[|ns| - 1])
        case Err(e) => Err(e)
        case Ok(x) => Ok(xs + [x])
  }

  function UnmarshallList(o: Options, ghost parent: AttributeValue, list: seq<AttributeValue>)
    : (r: Result<seq<JsValue>>)
    requires parent.L? && list <= parent.list
    ensures r.Ok? ==> |r.value| == |list|
    decreases parent, 0, |list|
  {
    if |list| == 0 then Ok([])
    else
      match UnmarshallList(o, parent, list[..|list| - 1])
      case Err(e) => Err(e)
      case Ok(xs) =>
        match UnmarshallValue(o, list[|list| - 1])
        case Err(e) => Err(e)
        case Ok(x) => Ok(xs + [x])
  }

  /** `Object.fromEntries` over the unmarshalled entries. */
  function UnmarshallEntries(o: Options, ghost parent: AttributeValue, entries: seq<(string, AttributeValue)>)
    : (r: Result<seq<(string, JsValue)>>)
    requires parent.M? && entries <= parent.entries
    decreases parent, 0, |entries|
  {
    if |entries| == 0 then Ok([])
    else
      match UnmarshallEntries(o, parent, entries[..|entries| - 1])
      case Err(e) => Err(e)
      case Ok(ps) =>
        match UnmarshallValue(o, entries[|entries| - 1].1)
        case Err(e) => Err(e)
        case Ok(x) => Ok(Put(ps, entries[|entries| - 1].0, x))
  }

  /** `unmarshallItem`: the item unmarshalled as a map. */
  function UnmarshallItem(o: Options, item: seq<(string, AttributeValue)>): Result<JsValue>
  {
    UnmarshallValue(o, M(item))
  }

  // ---------------------------------------------------------------------------
  // The loops of `marshallList`, `marshallMap`, `marshallObject` and `collectSet`

  method MarshallList(o: Options, list: seq<JsValue>) returns (r: Result<AttributeValue>)
    ensures r == (match ListSpec(o, Array(list), list) case Ok(vs) => Ok(L(vs)) case Err(e) => Err(e))
  {
    var values: seq<AttributeValue> := [];
    var i := 0;
    while i < |list|
      invariant 0 <= i <= |list|
      invariant ListSpec(o, Array(list), list[..i]) == Ok(values)
    {
      assert list[..i + 1][..i] == list[..i];
      var marshalled := MarshallValue(o, list[i]);
      match marshalled {
        case Err(e) =>
          ListErrSticky(o, Array(list), list[..i + 1], list);
          return Err(e);
        case Ok(None) =>
        case Ok(Some(a)) =>
          values := values + [a];
      }
      i := i + 1;
    }
    assert list[..i] == list;
    r := Ok(L(values));
  }

  method MarshallMap(o: Options, jsMap: seq<(JsValue, JsValue)>) returns (r: Result<AttributeValue>)
    ensures r == (match MapSpec(o, JsMap(jsMap), jsMap) case Ok(m) => Ok(M(m)) case Err(e) => Err(e))
  {
    var members: seq<(string, AttributeValue)> := [];
    var i := 0;
    while i < |jsMap|
      invariant 0 <= i <= |jsMap|
      invariant MapSpec(o, JsMap(jsMap), jsMap[..i]) == Ok(members)
    {
      assert jsMap[..i + 1][..i] == jsMap[..i];
      var (key, value) := jsMap[i];
      if !key.Str? {
        if o.onInvalid == OmitInvalid {
          i := i + 1;
          continue;
        }
        MapErrSticky(o, JsMap(jsMap), jsMap[..i + 1], jsMap);
        return Err(NonStringKey(key));
      }
      var marshalled := MarshallValue(o, value);
      match marshalled {
        case Err(e) =>
          MapErrSticky(o, JsMap(jsMap), jsMap[..i + 1], jsMap);
          return Err(e);
        case Ok(None) =>
        case Ok(Some(a)) =>
          members := Put(members, key.s, a);
      }
      i := i + 1;
    }
    assert jsMap[..i] == jsMap;
    r := Ok(M(members));
  }

  method MarshallObject(o: Options, obj: seq<(string, JsValue)>) returns (r: Result<AttributeValue>)
    ensures r == (match ObjectSpec(o, Object(obj), obj) case Ok(m) => Ok(M(m)) case Err(e) => Err(e))
  {
    var fields: seq<(string, AttributeValue)> := [];
    var i := 0;
    while i < |obj|
      invariant 0 <= i <= |obj|
      invariant ObjectSpec(o, Object(obj), obj[..i]) == Ok(fields)
    {
      assert obj[..i + 1][..i] == obj[..i];
      var marshalled := MarshallValue(o, obj[i].1);
      match marshalled {
        case Err(e) =>
          ObjectErrSticky(o, Object(obj), obj[..i + 1], obj);
          return Err(e);
        case Ok(None) =>
        case Ok(Some(a)) =>
          fields := Put(fields, obj[i].0, a);
      }
      i := i + 1;
    }
    assert obj[..i] == obj;
    r := Ok(M(fields));
  }

  method CollectSet(o: Options, members: seq<JsValue>, kind: SetKind) returns (r: Marshalled)
    requires kind == KindString || kind == KindNumber || kind == KindBinary
    ensures r == CollectSetSpec(o, members, kind)
  {
    var values: seq<JsValue> := [];
    var i := 0;
    while i < |members|
      invariant 0 <= i <= |members|
      invariant CollectSpec(o, members[..i], kind) == Ok(values)
    {
      assert members[..i + 1][..i] == members[..i];
      var element := members[i];
      if SetKindOf(element) != kind {
        if o.onInvalid == OmitInvalid {
          i := i + 1;
          continue;
        }
        CollectErrSticky(o, members[..i + 1], members, kind);
        return Err(MismatchedMember(element, kind));
      }
      if !IsEmptyMember(element) || o.onEmpty == Leave {
        values := values + [element];
      }
      i := i + 1;
    }
    assert members[..i] == members;
    if |values| > 0 || o.onEmpty == Leave {
      return Ok(Some(Tagged(kind, values)));
    }
    if o.onEmpty == Nullify {
      return Ok(Some(NULL(true)));
    }
    r := Ok(None);
  }

  // Once a fold has thrown, later elements are never examined.

  lemma {:induction false} ListErrSticky(o: Options, parent: JsValue, pre: seq<JsValue>, full: seq<JsValue>)
    requires parent.Array? && pre <= full <= parent.elems
    requires ListSpec(o, parent, pre).Err?
    ensures ListSpec(o, parent, full) == ListSpec(o, parent, pre)
    decreases |full|
  {
    if |full| > |pre| {
      ListErrSticky(o, parent, pre, full[..|full| - 1]);
    } else {
      assert pre == full;
    }
  }

  lemma {:induction false} MapErrSticky(o: Options, parent: JsValue, pre: seq<(JsValue, JsValue)>, full: seq<(JsValue, JsValue)>)
    requires parent.JsMap? && pre <= full <= parent.entries
    requires MapSpec(o, parent, pre).Err?
    ensures MapSpec(o, parent, full) == MapSpec(o, parent, pre)
    decreases |full|
  {
    if |full| > |pre| {
      MapErrSticky(o, parent, pre, full[..|full| - 1]);
    } else {
      assert pre == full;
    }
  }

  lemma {:induction false} ObjectErrSticky(o: Options, parent: JsValue, pre: seq<(string, JsValue)>, full: seq<(string, JsValue)>)
    requires parent.Object? && pre <= full <= parent.props
    requires ObjectSpec(o, parent, pre).Err?
    ensures ObjectSpec(o, parent, full) == ObjectSpec(o, parent, pre)
    decreases |full|
  {
    if |full| > |pre| {
      ObjectErrSticky(o, parent, pre, full[..|full| - 1]);
    } else {
      assert pre == full;
    }
  }

  lemma {:induction false} CollectErrSticky(o: Options, pre: seq<JsValue>, full: seq<JsValue>, kind: SetKind)
    requires pre <= full
    requires CollectSpec(o, pre, kind).Err?
    ensures CollectSpec(o, full, kind) == CollectSpec(o, pre, kind)
    decreases |full|
  {
    if |full| > |pre| {
      CollectErrSticky(o, pre, full[..|full| - 1], kind);
    } else {
      assert pre == full;
    }
  }

  // ---------------------------------------------------------------------------
  // Policies

  /** With no options given, an empty string is kept, a function throws and
      numbers are read back as bigints. */
  lemma DefaultOptions(f: nat)
    ensures MarshallValue(NewMarshaller(None, None, None), Str("")) == Ok(Some(S("")))
    ensures MarshallValue(NewMarshaller(None, None, None), Function(f)) == Err(CannotSerialize("function"))
    ensures UnmarshallValue(NewMarshaller(None, None, None), N("7")) == Ok(BigInt(7))
  {
    var o := NewMarshaller(None, None, None);
    EmptyStringPolicy(o, "");
    InvalidValuePolicy(o, Function(f));
    DefaultBigInt(o);
  }

  lemma DefaultBigInt(o: Options)
    requires !o.unwrapNumbers
    ensures UnmarshallValue(o, N("7")) == Ok(BigInt(7))
  {
    assert ParseInt("7") == Some(7) by { assert AllDigits("7"); assert DigitsValue("7") == 7; }
  }

  /** The empty string under each `onEmpty` policy; any other string is an `S`. */
  lemma EmptyStringPolicy(o: Options, s: string)
    ensures s != "" ==> MarshallValue(o, Str(s)) == Ok(Some(S(s)))
    ensures MarshallValue(o, Str("")) ==
      match o.onEmpty
      case Leave => Ok(Some(S("")))
      case Nullify => Ok(Some(NULL(true)))
      case Omit => Ok(None)
  {
  }

  /** Functions and symbols throw exactly under `throw`, and are dropped otherwise. */
  lemma InvalidValuePolicy(o: Options, v: JsValue)
    requires v.Function? || v.Symbol?
    ensures MarshallValue(o, v).Err? <==> o.onInvalid == Throw
    ensures MarshallValue(o, v).Err? ==>
      MarshallValue(o, v).error == CannotSerialize(if v.Function? then "function" else "symbol")
    ensures MarshallValue(o, v).Ok? ==> MarshallValue(o, v).value.None?
  {
  }

  /** The entries of a `Map` whose keys are strings, in order. */
  function StringKeyed(es: seq<(JsValue, JsValue)>): (r: seq<(JsValue, JsValue)>)
    ensures forall i :: 0 <= i < |r| ==> r[i].0.Str?
    ensures |es| > 0 ==> StringKeyed(es[..|es| - 1]) <= r
    decreases |es|
  {
    if |es| == 0 then []
    else
      var prev := StringKeyed(es[..|es| - 1]);
      if es[|es| - 1].0.Str? then prev + [es[|es| - 1]] else prev
  }

  /** Under `omit`, a `Map` marshals as if its non-string-keyed entries were absent. */
  lemma {:induction false} MapOmitsNonStringKeys(o: Options, p1: JsValue, es: seq<(JsValue, JsValue)>, p2: JsValue)
    requires o.onInvalid == OmitInvalid
    requires p1.JsMap? && es <= p1.entries
    requires p2.JsMap? && StringKeyed(es) <= p2.entries
    ensures MapSpec(o, p1, es) == MapSpec(o, p2, StringKeyed(es))
    decreases |es|
  {
    if |es| > 0 {
      var pre := es[..|es| - 1];
      MapOmitsNonStringKeys(o, p1, pre, p2);
      var sk := StringKeyed(pre);
      if es[|es| - 1].0.Str? {
        assert (sk + [es[|es| - 1]])[..|sk|] == sk;
      }
    }
  }

  /** Under `throw`, a `Map` with a non-string key does not marshal. */
  lemma {:induction false} MapThrowsOnNonStringKey(o: Options, p: JsValue, es: seq<(JsValue, JsValue)>, i: int)
    requires o.onInvalid == Throw
    requires p.JsMap? && es <= p.entries
    requires 0 <= i < |es| && !es[i].0.Str?
    ensures MapSpec(o, p, es).Err?
    decreases |es|
  {
    if i < |es| - 1 {
      MapThrowsOnNonStringKey(o, p, es[..|es| - 1], i);
    }
  }

  /** The members a set keeps: those of its kind that are non-empty, or all of
      them under `leave`. */
  function Kept(o: Options, ms: seq<JsValue>, kind: SetKind): seq<JsValue>
    decreases |ms|
  {
    if |ms| == 0 then []
    else
      var e := ms[|ms| - 1];
      Kept(o, ms[..|ms| - 1], kind) + if SetKindOf(e) == kind && (!IsEmptyMember(e) || o.onEmpty == Leave) then [e] else []
  }

  /** `collectSet` fails exactly when a member of another kind is met under
      `throw`; otherwise it keeps the `Kept` members, in order. */
  lemma {:induction false} CollectKeeps(o: Options, ms: seq<JsValue>, kind: SetKind)
    ensures CollectSpec(o, ms, kind).Ok? <==>
      o.onInvalid == OmitInvalid || forall i :: 0 <= i < |ms| ==> SetKindOf(ms[i]) == kind
    ensures CollectSpec(o, ms, kind).Ok? ==> CollectSpec(o, ms, kind).value == Kept(o, ms, kind)
    decreases |ms|
  {
    if |ms| > 0 {
      var pre := ms[..|ms| - 1];
      CollectKeeps(o, pre, kind);
      if CollectSpec(o, ms, kind).Ok? && o.onInvalid == Throw {
        forall i | 0 <= i < |ms| ensures SetKindOf(ms[i]) == kind {
          if i < |ms| - 1 { assert ms[i] == pre[i]; }
        }
      }
      if o.onInvalid == Throw && (forall i :: 0 <= i < |ms| ==> SetKindOf(ms[i]) == kind) {
        assert forall i :: 0 <= i < |pre| ==> SetKindOf(pre[i]) == kind by {
          forall i | 0 <= i < |pre| ensures SetKindOf(pre[i]) == kind { assert pre[i] == ms[i]; }
        }
      }
    }
  }

  /** A set left with no members is tagged empty under `leave`, nullified under
      `nullify` and omitted under `omit`. */
  lemma NoMembersRemain(o: Options, ms: seq<JsValue>, kind: SetKind)
    requires kind == KindString || kind == KindNumber || kind == KindBinary
    requires CollectSpec(o, ms, kind) == Ok([])
    ensures CollectSetSpec(o, ms, kind) ==
      match o.onEmpty
      case Leave => Ok(Some(Tagged(kind, [])))
      case Nullify => Ok(Some(NULL(true)))
      case Omit => Ok(None)
  {
  }

  /** A set holding only the empty string. */
  lemma EmptyStringSet(o: Options)
    ensures MarshallValue(o, JsSet([Str("")])) ==
      match o.onEmpty
      case Leave => Ok(Some(SS([""])))
      case Nullify => Ok(Some(NULL(true)))
      case Omit => Ok(None)
  {
    var ms := [Str("")];
    assert MarshallValue(o, JsSet(ms)) == CollectSetSpec(o, ms, KindString);
    EmptyStringMember(o);
    if o.onEmpty == Leave {
      assert Tagged(KindString, ms) == SS([""]);
    }
  }

  /** The empty string is kept as a member only under `leave`. */
  lemma EmptyStringMember(o: Options)
    ensures CollectSpec(o, [Str("")], KindString) == if o.onEmpty == Leave then Ok([Str("")]) else Ok([])
  {
    var ms := [Str("")];
    assert ms[..0] == [];
    assert CollectSpec(o, ms[..0], KindString) == Ok([]);
    assert SetKindOf(Str("")) == KindString && IsEmptyMember(Str(""));
    assert [] + [Str("")] == ms;
  }

  /** An empty set has no first member: it is nullified under `nullify` and
      dropped under both other policies. */
  lemma EmptySet(o: Options)
    ensures MarshallValue(o, JsSet([])) == if o.onEmpty == Nullify then Ok(Some(NULL(true))) else Ok(None)
  {
  }

  /** `marshallItem` throws exactly when marshalling throws, or when the value
      is not a map and `onInvalid` is `throw`; otherwise it is the map, or empty. */
  lemma MarshallItemContract(o: Options, item: JsValue)
    ensures MarshallItem(o, item).Err? <==>
      MarshallValue(o, item).Err? ||
      (o.onInvalid == Throw && !(MarshallValue(o, item).value.Some? && MarshallValue(o, item).value.value.M?))
    ensures MarshallItem(o, item).Ok? ==>
      MarshallItem(o, item).value ==
        if MarshallValue(o, item).value.Some? && MarshallValue(o, item).value.value.M?
        then MarshallValue(o, item).value.value.entries else []
  {
  }

  /** A string is not an attribute map. */
  lemma StringIsNotAnItem(o: Options)
    ensures MarshallItem(o, Str("x")) ==
      if o.onInvalid == Throw then Err(NotAnItem("string")) else Ok([])
  {
    EmptyStringPolicy(o, "x");
    NotAMap(o, Str("x"), S("x"));
    assert TypeOf(Str("x")) == "string";
  }

  /** A value that marshals to something other than a map is no item. */
  lemma NotAMap(o: Options, item: JsValue, a: AttributeValue)
    requires MarshallValue(o, item) == Ok(Some(a)) && !a.M?
    ensures MarshallItem(o, item) ==
      if o.onInvalid == Throw then Err(NotAnItem(TypeOf(item))) else Ok([])
  {
  }

  /** Numbers are read back as `number`s or as bigints, by `unwrapNumbers`; an
      unparsable number text throws only as a bigint. */
  lemma NumberUnmarshalling(o: Options, i: int)
    ensures UnmarshallValue(o, N(IntToString(i))) == if o.unwrapNumbers then Ok(Num(i)) else Ok(BigInt(i))
    ensures UnmarshallValue(o, N("x")) == if o.unwrapNumbers then Ok(NaN) else Err("Cannot convert x to a BigInt")
  {
    ParseIntToString(i);
    assert !IsDigit("x"[0]);
  }

  /** A value carrying no known tag reads back as an empty object. */
  lemma UnknownIsEmptyObject(o: Options)
    ensures UnmarshallValue(o, Unknown) == Ok(Object([]))
  {
  }

  // ---------------------------------------------------------------------------
  // Round trip

  /** Options under which the round trip is exact: empty values are left as
      they are and numbers are read back as `number`s. */
  predicate Lossless(o: Options)
  {
    o.onEmpty == Leave && o.unwrapNumbers
  }

  /** The values the auto-marshaller reproduces exactly: scalars other than
      bigints, arrays and objects (with distinct keys) of such values, and
      non-empty sets of distinct strings, of distinct numbers, or of distinct
      non-empty byte strings. */
  predicate Plain(v: JsValue)
    decreases v
  {
    match v
    case Null => true
    case Bool(_) => true
    case Num(_) => true
    case NaN => true
    case Str(_) => true
    case Binary(_) => true
    case Array(es) => forall i :: 0 <= i < |es| ==> Plain(es[i])
    case Object(ps) => DistinctKeys(ps) && forall i :: 0 <= i < |ps| ==> Plain(ps[i].1)
    case JsSet(ms) =>
      |ms| > 0 && Distinct(ms) &&
      ((forall i :: 0 <= i < |ms| ==> ms[i].Str?) || (forall i :: 0 <= i < |ms| ==> ms[i].Num?))
    case BinSet(bs) => |bs| > 0 && Distinct(bs) && forall i :: 0 <= i < |bs| ==> |bs[i]| > 0
    case _ => false
  }

  lemma {:induction false} SetOfDistinct(xs: seq<JsValue>)
    requires Distinct(xs)
    ensures SetOf(xs) == xs
    decreases |xs|
  {
    if |xs| > 0 {
      SetOfDistinct(xs[..|xs| - 1]);
      assert xs[..|xs| - 1] + [xs[|xs| - 1]] == xs;
    }
  }

  /** Under `leave`, a set whose members all have its kind keeps them all. */
  lemma {:induction false} KeptAll(o: Options, ms: seq<JsValue>, kind: SetKind)
    requires o.onEmpty == Leave && forall i :: 0 <= i < |ms| ==> SetKindOf(ms[i]) == kind
    ensures Kept(o, ms, kind) == ms
    decreases |ms|
  {
    if |ms| > 0 {
      KeptAll(o, ms[..|ms| - 1], kind);
      assert ms[..|ms| - 1] + [ms[|ms| - 1]] == ms;
    }
  }

  /** A set of plain members marshals to its tag holding every member. */
  lemma SetMarshalsWhole(o: Options, ms: seq<JsValue>, kind: SetKind)
    requires Lossless(o) && |ms| > 0
    requires kind == KindString || kind == KindNumber || kind == KindBinary
    requires forall i :: 0 <= i < |ms| ==> SetKindOf(ms[i]) == kind
    ensures MarshallSet(o, ms) == Ok(Some(Tagged(kind, ms)))
  {
    CollectKeeps(o, ms, kind);
    KeptAll(o, ms, kind);
  }

  /** Marshalling then unmarshalling a plain value gives it back. */
  lemma {:induction false} RoundTrip(o: Options, v: JsValue)
    requires Lossless(o) && Plain(v)
    ensures MarshallValue(o, v).Ok? && MarshallValue(o, v).value.Some?
    ensures UnmarshallValue(o, MarshallValue(o, v).value.value) == Ok(v)
    decreases v
  {
    match v
    case Array(es) => RoundTripArray(o, es);
    case Object(ps) => RoundTripPlainObject(o, ps);
    case JsSet(ms) => RoundTripSet(o, ms);
    case BinSet(bs) => RoundTripBinarySet(o, bs);
    case _ => RoundTripScalar(o, v);
  }

  lemma RoundTripScalar(o: Options, v: JsValue)
    requires Lossless(o) && Plain(v)
    requires v.Null? || v.Bool? || v.Str? || v.Binary? || v.Num? || v.NaN?
    ensures MarshallValue(o, v).Ok? && MarshallValue(o, v).value.Some?
    ensures UnmarshallValue(o, MarshallValue(o, v).value.value) == Ok(v)
  {
    if v.Num? {
      NumberOfText(v);
    } else if v.NaN? {
      assert !IsDigit("NaN"[0]);
    }
  }

  lemma {:induction false} RoundTripArray(o: Options, es: seq<JsValue>)
    requires Lossless(o) && Plain(Array(es))
    ensures MarshallValue(o, Array(es)).Ok? && MarshallValue(o, Array(es)).value.Some?
    ensures UnmarshallValue(o, MarshallValue(o, Array(es)).value.value) == Ok(Array(es))
    decreases Array(es), |es| + 1
  {
    var v := Array(es);
    RoundTripList(o, v, es, Unknown);
    var back := L(ListSpec(o, v, es).value);
    RoundTripList(o, v, es, back);
    assert MarshallValue(o, v) == Ok(Some(back));
  }

  lemma {:induction false} RoundTripPlainObject(o: Options, ps: seq<(string, JsValue)>)
    requires Lossless(o) && Plain(Object(ps))
    ensures MarshallValue(o, Object(ps)).Ok? && MarshallValue(o, Object(ps)).value.Some?
    ensures UnmarshallValue(o, MarshallValue(o, Object(ps)).value.value) == Ok(Object(ps))
    decreases Object(ps), |ps| + 1
  {
    var v := Object(ps);
    assert DistinctKeys(ps) && forall i :: 0 <= i < |ps| ==> Plain(ps[i].1);
    RoundTripObject(o, v, ps, Unknown);
    var m := ObjectSpec(o, v, ps).value;
    RoundTripObject(o, v, ps, M(m));
    ObjectMarshals(o, ps, m);
    ObjectUnmarshals(o, m, ps);
  }

  lemma ObjectMarshals(o: Options, ps: seq<(string, JsValue)>, m: seq<(string, AttributeValue)>)
    requires ObjectSpec(o, Object(ps), ps) == Ok(m)
    ensures MarshallValue(o, Object(ps)) == Ok(Some(M(m)))
  {
    assert MarshallComplexType(o, Object(ps)) == Ok(Some(M(m)));
  }

  lemma ObjectUnmarshals(o: Options, m: seq<(string, AttributeValue)>, ps: seq<(string, JsValue)>)
    requires UnmarshallEntries(o, M(m), m) == Ok(ps)
    ensures UnmarshallValue(o, M(m)) == Ok(Object(ps))
  {
  }

  lemma RoundTripSet(o: Options, ms: seq<JsValue>)
    requires Lossless(o) && Plain(JsSet(ms))
    ensures MarshallValue(o, JsSet(ms)).Ok? && MarshallValue(o, JsSet(ms)).value.Some?
    ensures UnmarshallValue(o, MarshallValue(o, JsSet(ms)).value.value) == Ok(JsSet(ms))
  {
    assert MarshallValue(o, JsSet(ms)) == MarshallSet(o, ms);
    if forall i :: 0 <= i < |ms| ==> ms[i].Str? {
      RoundTripStringSet(o, ms);
    } else {
      RoundTripNumberSet(o, ms);
    }
  }

  lemma RoundTripStringSet(o: Options, ms: seq<JsValue>)
    requires Lossless(o) && |ms| > 0 && Distinct(ms) && forall i :: 0 <= i < |ms| ==> ms[i].Str?
    ensures MarshallSet(o, ms).Ok? && MarshallSet(o, ms).value.Some?
    ensures UnmarshallValue(o, MarshallSet(o, ms).value.value) == Ok(JsSet(ms))
  {
    SetOfDistinct(ms);
    SetMarshalsWhole(o, ms, KindString);
    var a := Tagged(KindString, ms);
    assert seq(|a.strs|, i requires 0 <= i < |a.strs| => Str(a.strs[i])) == ms;
  }

  lemma RoundTripNumberSet(o: Options, ms: seq<JsValue>)
    requires Lossless(o) && |ms| > 0 && Distinct(ms) && forall i :: 0 <= i < |ms| ==> ms[i].Num?
    ensures MarshallSet(o, ms).Ok? && MarshallSet(o, ms).value.Some?
    ensures UnmarshallValue(o, MarshallSet(o, ms).value.value) == Ok(JsSet(ms))
  {
    SetOfDistinct(ms);
    SetMarshalsWhole(o, ms, KindNumber);
    var a := Tagged(KindNumber, ms);
    NumberTextsBack(ms);
    assert UnmarshallValue(o, a) == Ok(JsSet(SetOf(seq(|a.nums|, i requires 0 <= i < |a.nums| => NumberOf(a.nums[i])))));
  }

  /** Reading back the texts of a number set gives its numbers. */
  lemma NumberTextsBack(ms: seq<JsValue>)
    requires forall i :: 0 <= i < |ms| ==> ms[i].Num?
    ensures var a := Tagged(KindNumber, ms);
      seq(|a.nums|, i requires 0 <= i < |a.nums| => NumberOf(a.nums[i])) == ms
  {
    var a := Tagged(KindNumber, ms);
    forall i | 0 <= i < |ms| ensures NumberOf(a.nums[i]) == ms[i] {
      NumberOfText(ms[i]);
    }
  }

  lemma RoundTripBinarySet(o: Options, bs: seq<seq<bv8>>)
    requires Lossless(o) && Plain(BinSet(bs))
    ensures MarshallValue(o, BinSet(bs)).Ok? && MarshallValue(o, BinSet(bs)).value.Some?
    ensures UnmarshallValue(o, MarshallValue(o, BinSet(bs)).value.value) == Ok(BinSet(bs))
  {
    BinarySetMarshals(o, bs);
    BinarySetOfDistinct(bs);
    BinarySetUnmarshals(o, bs);
  }

  lemma BinarySetMarshals(o: Options, bs: seq<seq<bv8>>)
    requires Lossless(o) && |bs| > 0 && forall i :: 0 <= i < |bs| ==> |bs[i]| > 0
    ensures MarshallValue(o, BinSet(bs)) == Ok(Some(BS(bs)))
  {
    var ms := seq(|bs|, i requires 0 <= i < |bs| => Binary(bs[i]));
    assert MarshallValue(o, BinSet(bs)) == MarshallSet(o, ms);
    SetMarshalsWhole(o, ms, KindBinary);
    assert Tagged(KindBinary, ms) == BS(bs);
  }

  lemma BinarySetUnmarshals(o: Options, bs: seq<seq<bv8>>)
    requires BinarySetOf(bs) == bs
    ensures UnmarshallValue(o, BS(bs)) == Ok(BinSet(bs))
  {
  }

  lemma {:induction false} RoundTripList(o: Options, parent: JsValue, es: seq<JsValue>, back: AttributeValue)
    requires Lossless(o) && parent.Array? && es <= parent.elems
    requires forall i :: 0 <= i < |es| ==> Plain(es[i])
    ensures ListSpec(o, parent, es).Ok? && |ListSpec(o, parent, es).value| == |es|
    ensures back.L? && ListSpec(o, parent, es).value <= back.list ==>
      UnmarshallList(o, back, ListSpec(o, parent, es).value) == Ok(es)
    decreases parent, |es|
  {
    if |es| > 0 {
      RoundTripList(o, parent, es[..|es| - 1], back);
      RoundTrip(o, es[|es| - 1]);
      ListRoundTripStep(o, parent, es, back);
    }
  }

  /** The step of `RoundTripList`: the last element's round trip extends the
      round trip of the others. */
  lemma ListRoundTripStep(o: Options, parent: JsValue, es: seq<JsValue>, back: AttributeValue)
    requires parent.Array? && es <= parent.elems && |es| > 0
    requires var pre := es[..|es| - 1];
      && ListSpec(o, parent, pre).Ok? && |ListSpec(o, parent, pre).value| == |pre|
      && (back.L? && ListSpec(o, parent, pre).value <= back.list ==>
            UnmarshallList(o, back, ListSpec(o, parent, pre).value) == Ok(pre))
    requires var x := es[|es| - 1];
      MarshallValue(o, x).Ok? && MarshallValue(o, x).value.Some?
      && UnmarshallValue(o, MarshallValue(o, x).value.value) == Ok(x)
    ensures ListSpec(o, parent, es).Ok? && |ListSpec(o, parent, es).value| == |es|
    ensures back.L? && ListSpec(o, parent, es).value <= back.list ==>
      UnmarshallList(o, back, ListSpec(o, parent, es).value) == Ok(es)
  {
    var pre := es[..|es| - 1];
    var x := es[|es| - 1];
    var vs := ListSpec(o, parent, pre).value;
    var a := MarshallValue(o, x).value.value;
    assert ListSpec(o, parent, es) == Ok(vs + [a]);
    if back.L? && vs + [a] <= back.list {
      assert (vs + [a])[..|vs|] == vs;
      assert UnmarshallList(o, back, vs + [a]) == Ok(pre + [x]);
      assert pre + [x] == es;
    }
  }

  lemma {:induction false} RoundTripObject(o: Options, parent: JsValue, ps: seq<(string, JsValue)>, back: AttributeValue)
    requires Lossless(o) && parent.Object? && ps <= parent.props
    requires DistinctKeys(ps) && forall i :: 0 <= i < |ps| ==> Plain(ps[i].1)
    ensures ObjectSpec(o, parent, ps).Ok? && Keys(ObjectSpec(o, parent, ps).value) == Keys(ps)
    ensures back.M? && ObjectSpec(o, parent, ps).value <= back.entries ==>
      UnmarshallEntries(o, back, ObjectSpec(o, parent, ps).value) == Ok(ps)
    decreases parent, |ps|
  {
    if |ps| > 0 {
      var pre := ps[..|ps| - 1];
      assert DistinctKeys(pre) by {
        assert Keys(pre) == Keys(ps)[..|ps| - 1];
      }
      RoundTripObject(o, parent, pre, back);
      RoundTrip(o, ps[|ps| - 1].1);
      ObjectRoundTripStep(o, parent, ps, back);
    }
  }

  /** The step of `RoundTripObject`: the last property's round trip extends
      the round trip of the others. */
  lemma ObjectRoundTripStep(o: Options, parent: JsValue, ps: seq<(string, JsValue)>, back: AttributeValue)
    requires parent.Object? && ps <= parent.props && |ps| > 0 && DistinctKeys(ps)
    requires var pre := ps[..|ps| - 1];
      && ObjectSpec(o, parent, pre).Ok? && Keys(ObjectSpec(o, parent, pre).value) == Keys(pre)
      && (back.M? && ObjectSpec(o, parent, pre).value <= back.entries ==>
            UnmarshallEntries(o, back, ObjectSpec(o, parent, pre).value) == Ok(pre))
    requires var x := ps[|ps| - 1].1;
      MarshallValue(o, x).Ok? && MarshallValue(o, x).value.Some?
      && UnmarshallValue(o, MarshallValue(o, x).value.value) == Ok(x)
    ensures ObjectSpec(o, parent, ps).Ok? && Keys(ObjectSpec(o, parent, ps).value) == Keys(ps)
    ensures back.M? && ObjectSpec(o, parent, ps).value <= back.entries ==>
      UnmarshallEntries(o, back, ObjectSpec(o, parent, ps).value) == Ok(ps)
  {
    var pre := ps[..|ps| - 1];
    var (k, x) := ps[|ps| - 1];
    var m := ObjectSpec(o, parent, pre).value;
    var a := MarshallValue(o, x).value.value;
    assert k !in Keys(pre) by {
      forall i | 0 <= i < |pre| ensures Keys(pre)[i] != k {
        assert pre[i] == ps[i];
      }
    }
    ObjectStep(o, parent, ps, m, a);
    KeysSnoc(m, (k, a));
    KeysSnoc(pre, (k, x));
    assert pre + [(k, x)] == ps;
    if back.M? && m + [(k, a)] <= back.entries {
      EntriesStep(o, back, m, (k, a), pre, x);
    }
  }

  lemma KeysSnoc<T>(m: seq<(string, T)>, e: (string, T))
    ensures Keys(m + [e]) == Keys(m) + [e.0]
  {
  }

  lemma ObjectStep(o: Options, parent: JsValue, ps: seq<(string, JsValue)>, m: seq<(string, AttributeValue)>, a: AttributeValue)
    requires parent.Object? && ps <= parent.props && |ps| > 0
    requires ObjectSpec(o, parent, ps[..|ps| - 1]) == Ok(m)
    requires MarshallValue(o, ps[|ps| - 1].1) == Ok(Some(a))
    requires ps[|ps| - 1].0 !in Keys(m)
    ensures ObjectSpec(o, parent, ps) == Ok(m + [(ps[|ps| - 1].0, a)])
  {
  }

  lemma EntriesStep(o: Options, back: AttributeValue, m: seq<(string, AttributeValue)>, e: (string, AttributeValue),
                    pre: seq<(string, JsValue)>, x: JsValue)
    requires back.M? && m + [e] <= back.entries
    requires UnmarshallEntries(o, back, m) == Ok(pre)
    requires UnmarshallValue(o, e.1) == Ok(x)
    requires e.0 !in Keys(pre)
    ensures UnmarshallEntries(o, back, m + [e]) == Ok(pre + [(e.0, x)])
  {
    assert (m + [e])[..|m|] == m;
  }
}
