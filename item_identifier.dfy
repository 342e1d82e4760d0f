/** `itemIdentifier` of the batch iterator: a string that names one write
    request of a batch (its table, its kind, and its key-typed attributes in
    sorted order), used to re-associate unprocessed items with the requests
    that submitted them. */
module ItemIdentifier {
  import opened Wrappers
  import opened Text
  import opened Values

  const InvalidWriteRequest := "Invalid write request provided"

  type AttributeMap = seq<(string, AttributeValue)>

  /** A `WriteRequest`: `deleteKey` is `DeleteRequest.Key` and `putItem` is
      `PutRequest.Item`, each absent when the request or its map is. */
  datatype WriteRequest = WriteRequest(deleteKey: Option<AttributeMap>, putItem: Option<AttributeMap>)

  /** A `Uint8Array` rendered into a template string: its bytes in decimal,
      separated by commas. */
  function BytesText(bytes: seq<bv8>): (t: string)
    ensures |bytes| == 0 <==> t == ""
  {
    var parts := seq(|bytes|, i requires 0 <= i < |bytes| => NatToString(bytes[i] as nat));
    if |bytes| == 0 then ""
    else
      JoinNonEmpty(parts, ",");
      Join(parts, ",")
  }

  lemma JoinNonEmpty(parts: seq<string>, sep: string)
    requires |parts| > 0 && parts[0] != ""
    ensures Join(parts, sep) != ""
    decreases |parts|
  {
    if |parts| > 1 {
      JoinNonEmpty(parts[..|parts| - 1], sep);
    }
  }

  /** The `name=value` part an attribute contributes: a binary value always
      (a `Uint8Array` is truthy even when empty), a number or a string only
      when its text is non-empty; any other type contributes nothing. */
  function KeyPart(name: string, attribute: AttributeValue): (p: Option<string>)
    ensures p.Some? <==> attribute.B? || (attribute.N? && attribute.num != "") || (attribute.S? && attribute.str != "")
    ensures p.Some? ==> name + "=" <= p.value
  {
    match attribute
    case B(b) => Some(name + "=" + BytesText(b))
    case N(n) => if n != "" then Some(name + "=" + n) else None
    case S(s) => if s != "" then Some(name + "=" + s) else None
    case _ => None
  }

  /** The part contributed by the attribute stored under `name`. */
  function PartOf(attributes: AttributeMap, name: string): Option<string>
  {
    match Get(attributes, name)
    case None => None
    case Some(a) => KeyPart(name, a)
  }

  /** The loop of `serializeKeyTypeAttributes`, over the given names. */
  function KeyTypeParts(names: seq<string>, attributes: AttributeMap): (parts: seq<string>)
    ensures |parts| <= |names|
    decreases |names|
  {
    if |names| == 0 then []
    else
      var rest := KeyTypeParts(names[..|names| - 1], attributes);
      match PartOf(attributes, names[|names| - 1])
      case None => rest
      case Some(p) => rest + [p]
  }

  /** `serializeKeyTypeAttributes(attributes)`. */
  function Serialized(attributes: AttributeMap): string
  {
    Join(KeyTypeParts(SortStrings(Keys(attributes)), attributes), "&")
  }

  method SerializeKeyTypeAttributes(attributes: AttributeMap) returns (s: string)
    ensures s == Serialized(attributes)
  {
    var keyTypeProperties: seq<string> := [];
    var names := SortStrings(Keys(attributes));
    SortStringsCorrect(Keys(attributes));
    for i := 0 to |names|
      invariant keyTypeProperties == KeyTypeParts(names[..i], attributes)
    {
      assert names[..i + 1][..i] == names[..i];
      var property := names[i];
      assert property in multiset(Keys(attributes));
      var attribute := Get(attributes, property).value;
      if attribute.B? {
        keyTypeProperties := keyTypeProperties + [property + "=" + BytesText(attribute.bin)];
      } else if attribute.N? && attribute.num != "" {
        keyTypeProperties := keyTypeProperties + [property + "=" + attribute.num];
      } else if attribute.S? && attribute.str != "" {
        keyTypeProperties := keyTypeProperties + [property + "=" + attribute.str];
      }
    }
    assert names[..|names|] == names;
    s := Join(keyTypeProperties, "&");
  }

  /** `itemIdentifier(tableName, request)`: a delete request wins over a put
      request; a request with neither throws. */
  function Identifier(tableName: string, request: WriteRequest): (r: Result<string>)
    ensures r.Err? <==> request.deleteKey.None? && request.putItem.None?
    ensures r.Err? ==> r.error == InvalidWriteRequest
    ensures request.deleteKey.Some? ==> r.Ok? && tableName + "::delete::" <= r.value
    ensures request.deleteKey.None? && request.putItem.Some? ==>
      r.Ok? && tableName + "::put::" <= r.value
  {
    if request.deleteKey.Some? then Ok(tableName + "::delete::" + Serialized(request.deleteKey.value))
    else if request.putItem.Some? then Ok(tableName + "::put::" + Serialized(request.putItem.value))
    else Err(InvalidWriteRequest)
  }

  // ---------------------------------------------------------------------------
  // Properties

  /** Every part comes from one of the names, in the names' order, and every
      name whose attribute contributes has its part in the output. */
  lemma {:induction false} KeyTypePartsMembers(names: seq<string>, attributes: AttributeMap)
    ensures forall p :: p in KeyTypeParts(names, attributes) ==>
      exists i :: 0 <= i < |names| && PartOf(attributes, names[i]) == Some(p)
    ensures forall i :: 0 <= i < |names| && PartOf(attributes, names[i]).Some? ==>
      PartOf(attributes, names[i]).value in KeyTypeParts(names, attributes)
    decreases |names|
  {
    if |names| > 0 {
      var pre := names[..|names| - 1];
      KeyTypePartsMembers(pre, attributes);
      forall i | 0 <= i < |pre| ensures pre[i] == names[i] { }
    }
  }

  /** Parts depend only on what each name looks up. */
  lemma {:induction false} KeyTypePartsSameLookups(names: seq<string>, a: AttributeMap, b: AttributeMap)
    requires forall k :: Get(a, k) == Get(b, k)
    ensures KeyTypeParts(names, a) == KeyTypeParts(names, b)
    decreases |names|
  {
    if |names| > 0 {
      KeyTypePartsSameLookups(names[..|names| - 1], a, b);
    }
  }

  lemma {:induction false} DistinctCount(xs: seq<string>, x: string)
    requires Distinct(xs)
    ensures multiset(xs)[x] == if x in xs then 1 else 0
    decreases |xs|
  {
    if |xs| > 0 {
      assert xs == [xs[0]] + xs[1..];
      DistinctCount(xs[1..], x);
    }
  }

  /** The serialisation does not depend on the order in which the attribute
      map's entries were inserted: two maps with the same bindings give the
      same string. */
  lemma SerializedIgnoresOrder(a: AttributeMap, b: AttributeMap)
    requires DistinctKeys(a) && DistinctKeys(b)
    requires forall k :: Get(a, k) == Get(b, k)
    ensures Serialized(a) == Serialized(b)
  {
    var ka, kb := Keys(a), Keys(b);
    assert Distinct(ka) && Distinct(kb);
    forall x ensures multiset(ka)[x] == multiset(kb)[x] {
      DistinctCount(ka, x);
      DistinctCount(kb, x);
      assert x in ka <==> Get(a, x).Some?;
    }
    assert multiset(ka) == multiset(kb);
    SortIgnoresOrder(ka, kb);
    KeyTypePartsSameLookups(SortStrings(ka), a, b);
  }

  /** A delete request and a put request on the same table never share an
      identifier, whatever their keys. */
  lemma DeleteAndPutDiffer(tableName: string, delete: WriteRequest, put: WriteRequest)
    requires delete.deleteKey.Some?
    requires put.deleteKey.None? && put.putItem.Some?
    ensures Identifier(tableName, delete) != Identifier(tableName, put)
  {
    var d := Identifier(tableName, delete).value;
    var p := Identifier(tableName, put).value;
    assert (tableName + "::delete::")[|tableName| + 2] == 'd';
    assert (tableName + "::put::")[|tableName| + 2] == 'p';
  }

  /** Values are not escaped, so a string key containing `&` and `=` can
      collide with a two-attribute key. */
  lemma SerializedCollides()
    ensures Serialized([("a", S("1&b=2"))]) == Serialized([("a", S("1")), ("b", S("2"))])
  {
    OneAttributeParts();
    TwoAttributeParts();
    assert Join(["a=1", "b=2"][..1], "&") == "a=1";
  }

  lemma OneAttributeParts()
    ensures KeyTypeParts(SortStrings(Keys([("a", S("1&b=2"))])), [("a", S("1&b=2"))]) == ["a=1&b=2"]
  {
    var one: AttributeMap := [("a", S("1&b=2"))];
    assert Keys(one) == ["a"];
    assert SortStrings(["a"]) == ["a"] by {
      assert ["a"][1..] == [];
    }
    assert Get(one, "a") == Some(S("1&b=2"));
    assert KeyPart("a", S("1&b=2")) == Some("a=1&b=2") by {
      assert "a" + "=" + "1&b=2" == "a=1&b=2";
    }
    assert ["a"][..0] == [];
  }

  lemma SortedPair()
    ensures SortStrings(["a", "b"]) == ["a", "b"]
  {
    assert ["a", "b"][1..] == ["b"] && ["b"][1..] == [];
    assert SortStrings(["b"]) == ["b"];
    assert StrLessEq("a", "b") by {
      assert "a"[0] < "b"[0];
    }
  }

  lemma TwoAttributeParts()
    ensures KeyTypeParts(SortStrings(Keys([("a", S("1")), ("b", S("2"))])), [("a", S("1")), ("b", S("2"))]) == ["a=1", "b=2"]
  {
    var two: AttributeMap := [("a", S("1")), ("b", S("2"))];
    assert Keys(two) == ["a", "b"];
    SortedPair();
    assert Get(two, "a") == Some(S("1"));
    assert Get(two, "b") == Some(S("2")) by {
      assert two[1..] == [("b", S("2"))];
      assert "b" != "a";
    }
    assert KeyPart("a", S("1")) == Some("a=1") by {
      assert "a" + "=" + "1" == "a=1";
    }
    assert KeyPart("b", S("2")) == Some("b=2") by {
      assert "b" + "=" + "2" == "b=2";
    }
    assert KeyTypeParts(["a"], two) == ["a=1"] by {
      assert ["a"][..0] == [];
    }
    assert ["a", "b"][..1] == ["a"];
  }
}
