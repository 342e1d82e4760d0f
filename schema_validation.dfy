/** `isSchemaType` and `isSchema`: run-time validation of arbitrary JavaScript
    values as schemas. Schema nodes are objects on a heap, so a node may refer
    back to itself; the validator threads a set of already visited nodes. */
module SchemaValidation {
  import opened Wrappers
  import opened Text
  import opened Values

  type Ref = nat

  /** A JavaScript value: a primitive, or a reference to a heap object. */
  datatype Raw = RUndefined | RNull | RBool(b: bool) | RNum(n: int) | RStr(s: string) | RRef(ref: Ref)

  datatype ObjKind = PlainObject | ArrayObject | FunctionObject

  /** An object: its kind and its own enumerable properties in key order (for
      an array, its elements). */
  datatype Obj = Obj(kind: ObjKind, props: seq<(string, Raw)>)

  type Heap = map<Ref, Obj>

  function Props(heap: Heap, v: Raw): seq<(string, Raw)>
  {
    if v.RRef? && v.ref in heap then heap[v.ref].props else []
  }

  /** `v[key]` for an own property; anything else reads as undefined. */
  function Prop(heap: Heap, v: Raw, key: string): Raw
  {
    Get(Props(heap, v), key).GetOr(RUndefined)
  }

  predicate Truthy(v: Raw)
  {
    match v
    case RUndefined => false
    case RNull => false
    case RBool(b) => b
    case RNum(n) => n != 0
    case RStr(s) => s != ""
    case RRef(_) => true
  }

  function TypeOfRaw(heap: Heap, v: Raw): string
  {
    match v
    case RUndefined => "undefined"
    case RNull => "object"
    case RBool(_) => "boolean"
    case RNum(_) => "number"
    case RStr(_) => "string"
    case RRef(r) => if r in heap && heap[r].kind == FunctionObject then "function" else "object"
  }

  predicate IsArray(heap: Heap, v: Raw)
  {
    v.RRef? && v.ref in heap && heap[v.ref].kind == ArrayObject
  }

  /** The values of `Object.keys(v)` read back through `v[key]`. */
  function OwnValues(heap: Heap, v: Raw): (vs: seq<Raw>)
    ensures |vs| == |Props(heap, v)|
  {
    var ps := Props(heap, v);
    seq(|ps|, i requires 0 <= i < |ps| => ps[i].1)
  }

  const TypeTagNames: set<string> := {"Any", "Binary", "Boolean", "Collection", "Custom", "Date", "Document",
                                      "Hash", "List", "Map", "Null", "Number", "Set", "String", "Tuple"}

  /** `tag in KeyTypes` as intended: an own key of the key-type table. */
  predicate InKeyTypes(v: Raw)
  {
    v.RStr? && (v.s == "HASH" || v.s == "RANGE")
  }

  /** `isBaseType` as intended: an object whose `type` is one of the known tags
      and whose `attributeName` is a string or absent. */
  predicate IsBaseType(heap: Heap, arg: Raw)
  {
    Truthy(arg) && arg.RRef? && arg.ref in heap && TypeOfRaw(heap, arg) == "object" &&
    Prop(heap, arg, "type").RStr? && Prop(heap, arg, "type").s in TypeTagNames &&
    TypeOfRaw(heap, Prop(heap, arg, "attributeName")) in {"string", "undefined"}
  }

  /** `isKeyableType`: `keyType` absent or a key type; `indexKeyConfigurations`
      absent, or an object all of whose values are key types. */
  predicate IsKeyableType(heap: Heap, arg: Raw)
  {
    var keyType := Prop(heap, arg, "keyType");
    var configs := Prop(heap, arg, "indexKeyConfigurations");
    (keyType.RUndefined? || InKeyTypes(keyType)) &&
    if Truthy(configs) && TypeOfRaw(heap, configs) == "object" then
      forall i :: 0 <= i < |OwnValues(heap, configs)| ==> InKeyTypes(OwnValues(heap, configs)[i])
    else configs.RUndefined?
  }

  function TagOf(heap: Heap, arg: Raw): string
  {
    var t := Prop(heap, arg, "type");
    if t.RStr? then t.s else ""
  }

  /** What `isSchemaType` tests on a node itself, without its children. */
  predicate LocalOk(heap: Heap, ref: Ref)
  {
    var arg := RRef(ref);
    var tag := TagOf(heap, arg);
    IsBaseType(heap, arg) &&
    if tag == "Binary" || tag == "Date" || tag == "String" then IsKeyableType(heap, arg)
    else if tag == "Custom" then
      IsKeyableType(heap, arg) &&
      TypeOfRaw(heap, Prop(heap, arg, "marshall")) == "function" &&
      TypeOfRaw(heap, Prop(heap, arg, "unmarshall")) == "function" &&
      Prop(heap, arg, "attributeType") in {RUndefined, RStr("S"), RStr("N"), RStr("B")}
    else if tag == "Document" then
      Truthy(Prop(heap, arg, "members")) && TypeOfRaw(heap, Prop(heap, arg, "members")) == "object" &&
      TypeOfRaw(heap, Prop(heap, arg, "valueConstructor")) in {"function", "undefined"}
    else if tag == "Number" then
      IsKeyableType(heap, arg) &&
      TypeOfRaw(heap, Prop(heap, arg, "versionAttribute")) in {"boolean", "undefined"}
    else if tag == "Tuple" then IsArray(heap, Prop(heap, arg, "members"))
    else true
  }

  /** The nodes `isSchemaType` validates below a node. */
  function Children(heap: Heap, ref: Ref): seq<Raw>
  {
    var arg := RRef(ref);
    var tag := TagOf(heap, arg);
    if tag == "Document" || tag == "Tuple" then OwnValues(heap, Prop(heap, arg, "members"))
    else if tag == "List" || tag == "Map" then [Prop(heap, arg, "memberType")]
    else []
  }

  /** Every node of `w` outside `v` passes its own checks and has all its
      children in `w`. */
  ghost predicate GoodAbove(heap: Heap, w: set<Ref>, v: set<Ref>)
  {
    forall x :: x in w && x !in v ==>
      x in heap && LocalOk(heap, x) &&
      forall i :: 0 <= i < |Children(heap, x)| ==> Children(heap, x)[i].RRef? && Children(heap, x)[i].ref in w
  }

  /** A set of nodes that justifies itself: a schema graph. */
  ghost predicate Closed(heap: Heap, g: set<Ref>)
  {
    GoodAbove(heap, g, {})
  }

  /** A value is a valid schema type when some schema graph contains it. */
  ghost predicate ValidSchemaType(heap: Heap, v: Raw)
  {
    v.RRef? && exists g :: Closed(heap, g) && v.ref in g
  }

  lemma Shrinks(heap: Heap, visited: set<Ref>, ref: Ref)
    requires ref in heap && ref !in visited
    ensures |heap.Keys - (visited + {ref})| < |heap.Keys - visited|
  {
    assert heap.Keys - visited == (heap.Keys - (visited + {ref})) + {ref};
  }

  lemma NoGrowth(heap: Heap, v: set<Ref>, w: set<Ref>)
    requires v <= w
    ensures |heap.Keys - w| <= |heap.Keys - v|
  {
    var a := heap.Keys - w;
    var b := heap.Keys - v;
    assert b == a + (b - a);
  }

  /** A node of a schema graph passes its own checks, and its children are in the graph. */
  lemma InGraph(heap: Heap, g: set<Ref>, x: Ref)
    requires Closed(heap, g) && x in g
    ensures x in heap && LocalOk(heap, x) && IsBaseType(heap, RRef(x))
    ensures forall i :: 0 <= i < |Children(heap, x)| ==> Children(heap, x)[i].RRef? && Children(heap, x)[i].ref in g
  {
  }

  /** A value that fails its own checks is in no schema graph. */
  lemma Rejected(heap: Heap, arg: Raw)
    requires !(arg.RRef? && arg.ref in heap && LocalOk(heap, arg.ref) && IsBaseType(heap, arg))
    ensures forall g :: Closed(heap, g) && arg.RRef? ==> arg.ref !in g
  {
    forall g | Closed(heap, g) && arg.RRef?
      ensures arg.ref !in g
    {
      if arg.ref in g {
        InGraph(heap, g, arg.ref);
      }
    }
  }

  /** A node whose own checks pass and whose children are in `w` may join the justified part. */
  lemma Justify(heap: Heap, w: set<Ref>, v: set<Ref>, x: Ref)
    requires GoodAbove(heap, w, v + {x}) && x in w && x in heap && LocalOk(heap, x)
    requires forall i :: 0 <= i < |Children(heap, x)| ==> Children(heap, x)[i].RRef? && Children(heap, x)[i].ref in w
    ensures GoodAbove(heap, w, v)
  {
  }

  /** Justified layers stack up. */
  lemma GoodChain(heap: Heap, u: set<Ref>, w: set<Ref>, v: set<Ref>)
    requires v <= w <= u && GoodAbove(heap, u, w) && GoodAbove(heap, w, v)
    ensures GoodAbove(heap, u, v)
  {
  }

  /** `isSchemaType(arg, alreadyVisited)`: the result and the visited set afterwards. */
  method IsSchemaType(heap: Heap, arg: Raw, visited: set<Ref>) returns (r: bool, visited': set<Ref>)
    ensures visited <= visited'
    ensures IsBaseType(heap, arg) && arg.ref in visited ==> r
    ensures r ==> arg.RRef? && arg.ref in visited' && GoodAbove(heap, visited', visited)
    ensures forall g :: Closed(heap, g) && visited <= g && arg.RRef? && arg.ref in g ==> r && visited' <= g
    decreases |heap.Keys - visited|, 1
  {
    if !IsBaseType(heap, arg) {
      Rejected(heap, arg);
      return false, visited;
    }
    if arg.ref in visited {
      return true, visited;
    }
    Shrinks(heap, visited, arg.ref);
    var tag := TagOf(heap, arg);
    if tag == "Document" {
      r, visited' := IsDocumentType(heap, arg, visited);
    } else if tag == "Tuple" {
      r, visited' := IsTupleType(heap, arg, visited);
    } else if tag == "List" || tag == "Map" {
      r, visited' := IsCollectionType(heap, arg, visited);
    } else {
      r, visited' := IsLeafType(heap, arg, visited);
    }
  }

  /** `isDocumentType`: a `members` object whose values are all schema
      types, and a `valueConstructor` that is a function or absent. */
  method IsDocumentType(heap: Heap, arg: Raw, visited: set<Ref>) returns (r: bool, visited': set<Ref>)
    requires IsBaseType(heap, arg) && arg.ref !in visited && TagOf(heap, arg) == "Document"
    ensures visited <= visited'
    ensures r ==> arg.ref in visited' && GoodAbove(heap, visited', visited)
    ensures forall g :: Closed(heap, g) && visited <= g && arg.ref in g ==> r && visited' <= g
    decreases |heap.Keys - visited|, 0
  {
    var ref := arg.ref;
    var marked := visited + {ref};
    Shrinks(heap, visited, ref);
    var members := Prop(heap, arg, "members");
    if !Truthy(members) || TypeOfRaw(heap, members) != "object" {
      Rejected(heap, arg);
      return false, marked;
    }
    var ok;
    ok, visited' := IsMemberList(heap, ref, marked);
    if !ok {
      return false, visited';
    }
    r := TypeOfRaw(heap, Prop(heap, arg, "valueConstructor")) in {"function", "undefined"};
    if r {
      Justify(heap, visited', visited, ref);
    } else {
      Rejected(heap, arg);
    }
  }

  /** `isTupleType`: a `members` array whose entries are all schema types. */
  method IsTupleType(heap: Heap, arg: Raw, visited: set<Ref>) returns (r: bool, visited': set<Ref>)
    requires IsBaseType(heap, arg) && arg.ref !in visited && TagOf(heap, arg) == "Tuple"
    ensures visited <= visited'
    ensures r ==> arg.ref in visited' && GoodAbove(heap, visited', visited)
    ensures forall g :: Closed(heap, g) && visited <= g && arg.ref in g ==> r && visited' <= g
    decreases |heap.Keys - visited|, 0
  {
    var ref := arg.ref;
    var marked := visited + {ref};
    Shrinks(heap, visited, ref);
    if !IsArray(heap, Prop(heap, arg, "members")) {
      Rejected(heap, arg);
      return false, marked;
    }
    r, visited' := IsMemberList(heap, ref, marked);
    if r {
      Justify(heap, visited', visited, ref);
    }
  }

  /** `isListType` and `isMapType`: a `memberType` that is a schema type. */
  method IsCollectionType(heap: Heap, arg: Raw, visited: set<Ref>) returns (r: bool, visited': set<Ref>)
    requires IsBaseType(heap, arg) && arg.ref !in visited && (TagOf(heap, arg) == "List" || TagOf(heap, arg) == "Map")
    ensures visited <= visited'
    ensures r ==> arg.ref in visited' && GoodAbove(heap, visited', visited)
    ensures forall g :: Closed(heap, g) && visited <= g && arg.ref in g ==> r && visited' <= g
    decreases |heap.Keys - visited|, 0
  {
    var ref := arg.ref;
    var marked := visited + {ref};
    Shrinks(heap, visited, ref);
    var child := Prop(heap, arg, "memberType");
    assert Children(heap, ref) == [child];
    assert LocalOk(heap, ref);
    r, visited' := IsSchemaType(heap, child, marked);
    if r {
      Justify(heap, visited', visited, ref);
    }
    forall g | Closed(heap, g) && visited <= g && ref in g ensures r && visited' <= g {
      InGraph(heap, g, ref);
      assert Children(heap, ref)[0] == child;
      assert child.RRef? && child.ref in g && marked <= g;
    }
  }

  /** The tags without children: the node's own checks decide. */
  method IsLeafType(heap: Heap, arg: Raw, visited: set<Ref>) returns (r: bool, visited': set<Ref>)
    requires IsBaseType(heap, arg) && arg.ref !in visited
    requires TagOf(heap, arg) !in {"Document", "Tuple", "List", "Map"}
    ensures visited <= visited'
    ensures r ==> arg.ref in visited' && GoodAbove(heap, visited', visited)
    ensures forall g :: Closed(heap, g) && visited <= g && arg.ref in g ==> r && visited' <= g
  {
    var ref := arg.ref;
    assert Children(heap, ref) == [];
    r, visited' := LocalOk(heap, ref), visited + {ref};
    forall g | Closed(heap, g) && visited <= g && ref in g ensures r {
      InGraph(heap, g, ref);
    }
  }

  /** The loop of `isDocumentType` and `isTupleType`: every member must be a
      schema type, checked in order with the shared visited set. */
  method IsMemberList(heap: Heap, ref: Ref, visited: set<Ref>) returns (r: bool, visited': set<Ref>)
    requires ref in visited
    ensures visited <= visited'
    ensures r ==> GoodAbove(heap, visited', visited) &&
                  forall i :: 0 <= i < |Children(heap, ref)| ==> Children(heap, ref)[i].RRef? && Children(heap, ref)[i].ref in visited'
    ensures forall g :: Closed(heap, g) && visited <= g ==> r && visited' <= g
    decreases |heap.Keys - visited|, 2
  {
    var members := Children(heap, ref);
    visited' := visited;
    var i := 0;
    while i < |members|
      invariant 0 <= i <= |members|
      invariant visited <= visited'
      invariant GoodAbove(heap, visited', visited)
      invariant forall k :: 0 <= k < i ==> members[k].RRef? && members[k].ref in visited'
      invariant forall g :: Closed(heap, g) && visited <= g ==> visited' <= g
    {
      NoGrowth(heap, visited, visited');
      var ok, after := IsSchemaType(heap, members[i], visited');
      forall g | Closed(heap, g) && visited <= g ensures ok && after <= g {
        InGraph(heap, g, ref);
      }
      if !ok {
        return false, after;
      }
      forall k | 0 <= k <= i ensures members[k].RRef? && members[k].ref in after {
        if k < i {
          assert members[k].ref in visited';
        }
      }
      GoodChain(heap, after, visited', visited);
      visited' := after;
      i := i + 1;
    }
    r := true;
  }

  /** `isSchema`: a truthy object every own property of which is a schema
      type, each checked with a fresh visited set. */
  method IsSchema(heap: Heap, arg: Raw) returns (r: bool)
    ensures r <==> Truthy(arg) && TypeOfRaw(heap, arg) == "object" &&
                   forall i :: 0 <= i < |OwnValues(heap, arg)| ==> ValidSchemaType(heap, OwnValues(heap, arg)[i])
  {
    if !Truthy(arg) || TypeOfRaw(heap, arg) != "object" {
      return false;
    }
    var fields := OwnValues(heap, arg);
    var i := 0;
    while i < |fields|
      invariant 0 <= i <= |fields|
      invariant forall k :: 0 <= k < i ==> ValidSchemaType(heap, fields[k])
    {
      var ok := IsSchemaTypeFresh(heap, fields[i]);
      if !ok {
        return false;
      }
      i := i + 1;
    }
    return true;
  }

  /** `isSchemaType(arg)` with its default, empty visited set: exactly the
      values some schema graph contains. */
  method IsSchemaTypeFresh(heap: Heap, arg: Raw) returns (r: bool)
    ensures r <==> ValidSchemaType(heap, arg)
  {
    var visited';
    r, visited' := IsSchemaType(heap, arg, {});
    if r {
      assert Closed(heap, visited');
    }
  }

  // ---------------------------------------------------------------------------
  // Examples

  /** A list node whose member type is itself: accepted, because the node is
      visited before its member type is checked. */
  lemma SelfListIsSchemaType()
    ensures ValidSchemaType(map[0 := Obj(PlainObject, [("type", RStr("List")), ("memberType", RRef(0))])], RRef(0))
  {
    var heap := map[0 := Obj(PlainObject, [("type", RStr("List")), ("memberType", RRef(0))])];
    assert Prop(heap, RRef(0), "type") == RStr("List");
    assert Prop(heap, RRef(0), "memberType") == RRef(0);
    assert Prop(heap, RRef(0), "attributeName") == RUndefined;
    assert Closed(heap, {0});
  }

  /** A document whose member is neither an object nor a node is rejected. */
  lemma BadMemberRejected()
    ensures !ValidSchemaType(map[0 := Obj(PlainObject, [("type", RStr("Document")), ("members", RRef(1))]),
                                 1 := Obj(PlainObject, [("foo", RStr("String"))])], RRef(0))
  {
    var heap := map[0 := Obj(PlainObject, [("type", RStr("Document")), ("members", RRef(1))]),
                    1 := Obj(PlainObject, [("foo", RStr("String"))])];
    assert Prop(heap, RRef(0), "type") == RStr("Document");
    assert Prop(heap, RRef(0), "members") == RRef(1);
    assert Children(heap, 0) == [RStr("String")];
    assert !Children(heap, 0)[0].RRef?;
    if ValidSchemaType(heap, RRef(0)) {
      var g :| Closed(heap, g) && 0 in g;
      InGraph(heap, g, 0);
      assert false;
    }
  }

  // ---------------------------------------------------------------------------
  // `in` on a plain object literal

  /** `arg.type in TypeTags` as written: the `in` operator also finds the
      properties every object inherits from `Object.prototype`. */
  predicate InTypeTagsAsWritten(tag: string)
  {
    tag in TypeTagNames || InheritedMember(tag)
  }

  /** `keyType in KeyTypes` as written, for string key types. */
  predicate InKeyTypesAsWritten(v: Raw)
  {
    v.RStr? && (v.s == "HASH" || v.s == "RANGE" || InheritedMember(v.s))
  }

  /** `isBaseType` as written. */
  predicate IsBaseTypeAsWritten(heap: Heap, arg: Raw)
  {
    Truthy(arg) && arg.RRef? && arg.ref in heap && TypeOfRaw(heap, arg) == "object" &&
    Prop(heap, arg, "type").RStr? && InTypeTagsAsWritten(Prop(heap, arg, "type").s) &&
    TypeOfRaw(heap, Prop(heap, arg, "attributeName")) in {"string", "undefined"}
  }

  /** The written check accepts everything the intended one does, and differs
      from it only on inherited property names. */
  lemma AsWrittenDiffersOnlyOnInherited(heap: Heap, arg: Raw, v: Raw)
    ensures IsBaseType(heap, arg) ==> IsBaseTypeAsWritten(heap, arg)
    ensures IsBaseTypeAsWritten(heap, arg) && !InheritedMember(TagOf(heap, arg)) ==> IsBaseType(heap, arg)
    ensures InKeyTypes(v) ==> InKeyTypesAsWritten(v)
    ensures InKeyTypesAsWritten(v) && !InheritedMember(v.s) ==> InKeyTypes(v)
  {
  }

  /** `{type: 'toString'}` passes the written `isBaseType` (and then the
      `default` branch of `isSchemaType`), though no node has that tag; the
      intended check rejects it, so it is in no schema graph. */
  lemma InheritedTagAccepted()
    ensures IsBaseTypeAsWritten(map[0 := Obj(PlainObject, [("type", RStr("toString"))])], RRef(0))
    ensures !ValidSchemaType(map[0 := Obj(PlainObject, [("type", RStr("toString"))])], RRef(0))
    ensures InKeyTypesAsWritten(RStr("constructor")) && !InKeyTypes(RStr("constructor"))
  {
    var heap := map[0 := Obj(PlainObject, [("type", RStr("toString"))])];
    assert Prop(heap, RRef(0), "type") == RStr("toString");
    assert Prop(heap, RRef(0), "attributeName") == RUndefined;
    assert !IsBaseType(heap, RRef(0));
    if ValidSchemaType(heap, RRef(0)) {
      var g :| Closed(heap, g) && 0 in g;
      InGraph(heap, g, 0);
      assert false;
    }
  }
}
