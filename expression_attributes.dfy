/** Substitution of expression attribute names (`#attrN`) and values (`:valN`),
    with one counter shared by both kinds of placeholder. */
module ExpressionAttributes {
  import opened Wrappers
  import opened Text
  import opened AttributePath

  function NamePlaceholder(k: nat): string { "#attr" + NatToString(k) }
  function ValuePlaceholder(k: nat): string { ":val" + NatToString(k) }

  /** The counter value a name placeholder was made from, if it is one. */
  function NameIndex(p: string): Option<nat>
  {
    if |p| > 5 && p[..5] == "#attr" then ParseNat(p[5..]) else None
  }

  function ValueIndex(p: string): Option<nat>
  {
    if |p| > 4 && p[..4] == ":val" then ParseNat(p[4..]) else None
  }

  lemma NameIndexOf(k: nat)
    ensures NameIndex(NamePlaceholder(k)) == Some(k)
  {
    var p := NamePlaceholder(k);
    assert p[..5] == "#attr" && p[5..] == NatToString(k);
    ParseNatToString(k);
  }

  lemma ValueIndexOf(k: nat)
    ensures ValueIndex(ValuePlaceholder(k)) == Some(k)
  {
    var p := ValuePlaceholder(k);
    assert p[..4] == ":val" && p[4..] == NatToString(k);
    ParseNatToString(k);
  }

  /** The four pieces of state of the substitution context. */
  datatype AttrState<V> = AttrState(names: map<string, string>, values: map<string, V>,
                                   nameMap: map<string, string>, ctr: nat)

  function Empty<V>(): AttrState<V> { AttrState(map[], map[], map[], 0) }

  /** Every placeholder was made from a counter value already used, name and value
      placeholders never share a counter value, and `names` and `nameMap` are
      inverse to each other. */
  ghost predicate ValidState<V>(st: AttrState<V>)
  {
    && (forall p :: p in st.names ==> NameIndex(p).Some? && NameIndex(p).value < st.ctr)
    && (forall p :: p in st.values ==> ValueIndex(p).Some? && ValueIndex(p).value < st.ctr)
    && (forall p, q :: p in st.names && q in st.values ==> NameIndex(p) != ValueIndex(q))
    && (forall n :: n in st.nameMap ==> st.nameMap[n] in st.names && st.names[st.nameMap[n]] == n)
    && (forall p :: p in st.names ==> st.names[p] in st.nameMap && st.nameMap[st.names[p]] == p)
  }

  /** `addAttributeName`: the placeholder already given to `name`, or a fresh one. */
  function AddAttributeNameSpec<V>(st: AttrState<V>, name: string): (r: (string, AttrState<V>))
    ensures r.1.nameMap == st.nameMap[name := r.0]
    ensures r.1.values == st.values
  {
    if name in st.nameMap then (st.nameMap[name], st)
    else
      var p := NamePlaceholder(st.ctr);
      (p, st.(nameMap := st.nameMap[name := p], names := st.names[p := name], ctr := st.ctr + 1))
  }

  /** `addValue`: always a fresh placeholder. */
  function AddValueSpec<V>(st: AttrState<V>, value: V): (r: (string, AttrState<V>))
    ensures r.1.names == st.names && r.1.nameMap == st.nameMap
    ensures r.1.values == st.values[r.0 := value]
  {
    var p := ValuePlaceholder(st.ctr);
    (p, st.(values := st.values[p := value], ctr := st.ctr + 1))
  }

  function ElementPiece<V>(st: AttrState<V>, e: PathElement): (string, AttrState<V>)
  {
    match e
    case AttributeName(n) =>
      var (p, st1) := AddAttributeNameSpec(st, n);
      ("." + p, st1)
    case ListIndex(k) => ("[" + NatToString(k) + "]", st)
  }

  /** The escaped path accumulated over `elements`, left to right. */
  function EscapeFold<V>(st: AttrState<V>, elements: seq<PathElement>): (string, AttrState<V>)
    decreases |elements|
  {
    if |elements| == 0 then ("", st)
    else
      var (s, st1) := EscapeFold(st, elements[..|elements| - 1]);
      var (piece, st2) := ElementPiece(st1, elements[|elements| - 1]);
      (s + piece, st2)
  }

  lemma EscapeFoldSnoc<V>(st: AttrState<V>, init: seq<PathElement>, e: PathElement)
    ensures EscapeFold(st, init + [e])
         == (var (s, st1) := EscapeFold(st, init);
             var (piece, st2) := ElementPiece(st1, e);
             (s + piece, st2))
  {
    assert (init + [e])[..|init|] == init;
  }

  /** `String.prototype.slice(1)`. */
  function DropFirst(s: string): string { if |s| == 0 then "" else s[1..] }

  /** `addName` of a path. */
  function AddNameSpec<V>(st: AttrState<V>, elements: seq<PathElement>): (string, AttrState<V>)
  {
    var (s, st1) := EscapeFold(st, elements);
    (DropFirst(s), st1)
  }

  class ExpressionAttributes<V> {
    var names: map<string, string>
    var values: map<string, V>
    var nameMap: map<string, string>
    var ctr: nat

    function State(): AttrState<V>
      reads this
    {
      AttrState(names, values, nameMap, ctr)
    }

    ghost predicate Valid()
      reads this
    {
      ValidState(State())
    }

    constructor()
      ensures State() == Empty()
      ensures Valid()
    {
      names := map[];
      values := map[];
      nameMap := map[];
      ctr := 0;
    }

    method AddAttributeName(name: string) returns (p: string)
      requires Valid()
      modifies this
      ensures (p, State()) == AddAttributeNameSpec(old(State()), name)
      ensures Valid()
    {
      AddAttributeNameValid(State(), name);
      if name !in nameMap {
        nameMap := nameMap[name := NamePlaceholder(ctr)];
        names := names[nameMap[name] := name];
        ctr := ctr + 1;
      }
      p := nameMap[name];
    }

    method AddValue(value: V) returns (p: string)
      requires Valid()
      modifies this
      ensures (p, State()) == AddValueSpec(old(State()), value)
      ensures Valid()
    {
      AddValueValid(State(), value);
      p := ValuePlaceholder(ctr);
      ctr := ctr + 1;
      values := values[p := value];
    }

    /** `addName` of an `AttributePath`. */
    method AddName(path: AttributePath) returns (s: string)
      requires Valid()
      modifies this
      ensures (s, State()) == AddNameSpec(old(State()), path.elements)
      ensures Valid()
    {
      var elements := path.elements;
      var escaped := "";
      var i := 0;
      while i < |elements|
        invariant 0 <= i <= |elements|
        invariant (escaped, State()) == EscapeFold(old(State()), elements[..i])
        invariant Valid()
      {
        EscapeFoldSnoc(old(State()), elements[..i], elements[i]);
        assert elements[..i] + [elements[i]] == elements[..i + 1];
        match elements[i] {
          case AttributeName(n) =>
            var p := AddAttributeName(n);
            escaped := escaped + ("." + p);
          case ListIndex(k) =>
            escaped := escaped + ("[" + NatToString(k) + "]");
        }
        i := i + 1;
      }
      assert elements[..i] == elements;
      s := DropFirst(escaped);
    }

    /** `addName` of a string: the string is parsed into a path first; a string
        that does not parse throws before anything is added. */
    method AddNameString(path: string) returns (r: Result<string>)
      requires Valid()
      modifies this
      ensures ParsePathSpec(path).Err? ==> r == Err(ParsePathSpec(path).error) && State() == old(State())
      ensures ParsePathSpec(path).Ok? ==>
                r.Ok? && (r.value, State()) == AddNameSpec(old(State()), ParsePathSpec(path).value)
      ensures Valid()
    {
      var parsed := FromString(path);
      if parsed.Err? {
        return Err(parsed.error);
      }
      var s := AddName(parsed.value);
      r := Ok(s);
    }
  }

  // ---------------------------------------------------------------------------
  // Properties of the substitution context

  lemma AddAttributeNameValid<V>(st: AttrState<V>, name: string)
    requires ValidState(st)
    ensures ValidState(AddAttributeNameSpec(st, name).1)
  {
    if name !in st.nameMap {
      var p := NamePlaceholder(st.ctr);
      NameIndexOf(st.ctr);
      assert p !in st.names;
      var st1 := AddAttributeNameSpec(st, name).1;
      forall p1, q | p1 in st1.names && q in st1.values
        ensures NameIndex(p1) != ValueIndex(q)
      {
        if p1 == p { assert ValueIndex(q).value < st.ctr; }
      }
    }
  }

  lemma AddValueValid<V>(st: AttrState<V>, value: V)
    requires ValidState(st)
    ensures ValidState(AddValueSpec(st, value).1)
  {
    var p := ValuePlaceholder(st.ctr);
    ValueIndexOf(st.ctr);
    var st1 := AddValueSpec(st, value).1;
    forall p1, q | p1 in st1.names && q in st1.values
      ensures NameIndex(p1) != ValueIndex(q)
    {
      if q == p { assert NameIndex(p1).value < st.ctr; }
    }
  }

  /** Adding the same attribute name again returns the same placeholder and
      changes nothing, the counter included. */
  lemma AddAttributeNameMemoised<V>(st: AttrState<V>, name: string)
    ensures var (p, st1) := AddAttributeNameSpec(st, name);
            AddAttributeNameSpec(st1, name) == (p, st1)
  {
  }

  /** A new attribute name gets the placeholder made from the current counter, which no
      placeholder in use has, and `names` maps it back to the name. */
  lemma AddAttributeNameFresh<V>(st: AttrState<V>, name: string)
    requires ValidState(st) && name !in st.nameMap
    ensures var (p, st1) := AddAttributeNameSpec(st, name);
            && p == NamePlaceholder(st.ctr) && p !in st.names
            && st1.names == st.names[p := name] && st1.ctr == st.ctr + 1
  {
    NameIndexOf(st.ctr);
  }

  /** Every value gets a fresh placeholder, even when an equal value was added before,
      and the value is stored under it. */
  lemma AddValueFresh<V>(st: AttrState<V>, value: V)
    requires ValidState(st)
    ensures var (p, st1) := AddValueSpec(st, value);
            && p == ValuePlaceholder(st.ctr) && p !in st.values
            && st1.values[p] == value && st1.ctr == st.ctr + 1
  {
    ValueIndexOf(st.ctr);
  }

  /** Placeholders are distinct across calls: two successive `addValue` calls never
      return the same placeholder. */
  lemma AddValueTwiceDistinct<V>(st: AttrState<V>, v1: V, v2: V)
    ensures var (p1, st1) := AddValueSpec(st, v1);
            var (p2, st2) := AddValueSpec(st1, v2);
            p1 != p2
  {
    NatToStringInjective(st.ctr, st.ctr + 1);
    var p1 := ValuePlaceholder(st.ctr);
    var p2 := ValuePlaceholder(st.ctr + 1);
    assert p1[4..] == NatToString(st.ctr) && p2[4..] == NatToString(st.ctr + 1);
  }

  /** The path rendered with the placeholders of `nameMap`, before the leading
      character is dropped. */
  function RenderWith(elements: seq<PathElement>, nameMap: map<string, string>): string
    requires forall k :: 0 <= k < |elements| ==> elements[k].AttributeName? ==> elements[k].name in nameMap
    decreases |elements|
  {
    if |elements| == 0 then ""
    else
      var e := elements[|elements| - 1];
      RenderWith(elements[..|elements| - 1], nameMap)
      + (match e
         case AttributeName(n) => "." + nameMap[n]
         case ListIndex(k) => "[" + NatToString(k) + "]")
  }

  predicate Extends(small: map<string, string>, big: map<string, string>)
  {
    forall n :: n in small ==> n in big && big[n] == small[n]
  }

  lemma {:induction false} RenderWithExtends(elements: seq<PathElement>, small: map<string, string>,
                                             big: map<string, string>)
    requires forall k :: 0 <= k < |elements| ==> elements[k].AttributeName? ==> elements[k].name in small
    requires Extends(small, big)
    ensures forall k :: 0 <= k < |elements| ==> elements[k].AttributeName? ==> elements[k].name in big
    ensures RenderWith(elements, small) == RenderWith(elements, big)
    decreases |elements|
  {
    if |elements| > 0 {
      RenderWithExtends(elements[..|elements| - 1], small, big);
    }
  }

  /** `addName` of a path: each name is replaced by its placeholder in the resulting
      table and each index is written `[i]`; placeholders given out earlier keep
      their names, and values are untouched. */
  lemma {:induction false} EscapeFoldRenders<V>(st: AttrState<V>, elements: seq<PathElement>)
    ensures var (s, st1) := EscapeFold(st, elements);
            && (forall k :: 0 <= k < |elements| ==> elements[k].AttributeName? ==> elements[k].name in st1.nameMap)
            && s == RenderWith(elements, st1.nameMap)
            && Extends(st.nameMap, st1.nameMap)
            && st1.values == st.values
            && st1.ctr >= st.ctr
    decreases |elements|
  {
    if |elements| > 0 {
      var init := elements[..|elements| - 1];
      var e := elements[|elements| - 1];
      EscapeFoldRenders(st, init);
      var (s0, st0) := EscapeFold(st, init);
      var (piece, st1) := ElementPiece(st0, e);
      assert Extends(st0.nameMap, st1.nameMap);
      RenderWithExtends(init, st0.nameMap, st1.nameMap);
      assert elements[..|elements| - 1] == init;
      forall k | 0 <= k < |elements| && elements[k].AttributeName?
        ensures elements[k].name in st1.nameMap
      {
        if k < |init| { assert elements[k] == init[k]; }
      }
    }
  }

  lemma {:induction false} EscapeFoldValid<V>(st: AttrState<V>, elements: seq<PathElement>)
    requires ValidState(st)
    ensures ValidState(EscapeFold(st, elements).1)
    decreases |elements|
  {
    if |elements| > 0 {
      EscapeFoldValid(st, elements[..|elements| - 1]);
      var st0 := EscapeFold(st, elements[..|elements| - 1]).1;
      match elements[|elements| - 1]
      case AttributeName(n) => AddAttributeNameValid(st0, n);
      case ListIndex(_) =>
    }
  }

  /** Adding a path whose names are all known already changes nothing. */
  lemma {:induction false} EscapeFoldKnown<V>(st: AttrState<V>, elements: seq<PathElement>)
    requires forall k :: 0 <= k < |elements| ==> elements[k].AttributeName? ==> elements[k].name in st.nameMap
    ensures EscapeFold(st, elements).1 == st
    decreases |elements|
  {
    if |elements| > 0 {
      EscapeFoldKnown(st, elements[..|elements| - 1]);
    }
  }

  /** Adding the same path twice gives the same string the second time and leaves the
      table as it was after the first. */
  lemma AddNameIdempotent<V>(st: AttrState<V>, elements: seq<PathElement>)
    ensures var (s, st1) := AddNameSpec(st, elements);
            AddNameSpec(st1, elements) == (s, st1)
  {
    EscapeFoldRenders(st, elements);
    var st1 := EscapeFold(st, elements).1;
    EscapeFoldKnown(st1, elements);
    EscapeFoldRenders(st1, elements);
    RenderWithExtends(elements, st1.nameMap, EscapeFold(st1, elements).1.nameMap);
  }

  /** A one-name path is replaced by that name's placeholder. */
  lemma AddNameSingle<V>(st: AttrState<V>, name: string)
    ensures AddNameSpec(st, [AttributeName(name)]).0 == AddAttributeNameSpec(st, name).0
    ensures AddNameSpec(st, [AttributeName(name)]).1 == AddAttributeNameSpec(st, name).1
  {
    EscapeFoldSnoc(st, [], AttributeName(name));
    assert [] + [AttributeName(name)] == [AttributeName(name)];
    assert "" + "." + AddAttributeNameSpec(st, name).0 == "." + AddAttributeNameSpec(st, name).0;
  }

  lemma EscapeFoldPair<V>(st: AttrState<V>, e1: PathElement, e2: PathElement)
    ensures var (p1, st1) := ElementPiece(st, e1);
            var (p2, st2) := ElementPiece(st1, e2);
            EscapeFold(st, [e1, e2]) == (p1 + p2, st2)
  {
    EscapeFoldSnoc(st, [], e1);
    EscapeFoldSnoc(st, [e1], e2);
    assert [] + [e1] == [e1];
    assert [e1] + [e2] == [e1, e2];
    assert EscapeFold(st, []) == ("", st);
    assert "" + ElementPiece(st, e1).0 == ElementPiece(st, e1).0;
  }

  lemma FreshNamePiece<V>(st: AttrState<V>, name: string)
    requires name !in st.nameMap
    ensures var (p, st1) := ElementPiece(st, AttributeName(name));
            p == "." + NamePlaceholder(st.ctr) && st1.ctr == st.ctr + 1
            && st1.nameMap == st.nameMap[name := NamePlaceholder(st.ctr)]
  {
  }

  lemma FirstPathText()
    ensures DropFirst("." + NamePlaceholder(0) + ("." + NamePlaceholder(1))) == "#attr0.#attr1"
  {
    assert NatToString(0) == "0" && NatToString(1) == "1";
  }

  lemma SecondPathText()
    ensures DropFirst("." + NamePlaceholder(2) + ("[" + NatToString(2) + "]")) == "#attr2[2]"
  {
    assert NatToString(2) == "2";
  }

  lemma ExampleTwoPaths()
    ensures var (s1, st1) := AddNameSpec(Empty<int>(), [AttributeName("a"), AttributeName("b")]);
            var (s2, st2) := AddNameSpec(st1, [AttributeName("c"), ListIndex(2)]);
            s1 == "#attr0.#attr1" && s2 == "#attr2[2]"
  {
    var e0 := Empty<int>();
    EscapeFoldPair(e0, AttributeName("a"), AttributeName("b"));
    FreshNamePiece(e0, "a");
    var sa := ElementPiece(e0, AttributeName("a")).1;
    FreshNamePiece(sa, "b");
    var sb := ElementPiece(sa, AttributeName("b")).1;
    FreshNamePiece(sb, "c");
    EscapeFoldPair(sb, AttributeName("c"), ListIndex(2));
    FirstPathText();
    SecondPathText();
  }

  // ---------------------------------------------------------------------------
  // The membership test on `nameMap` as written

  /** What `addAttributeName` yields as written. */
  datatype Lookup = Placeholder(p: string) | InheritedValue(member: string)

  /** `addAttributeName` as written: the `in` test also sees members inherited from
      `Object.prototype`, so such a name is never registered and the inherited member
      itself is returned. */
  function AddAttributeNameAsWritten<V>(st: AttrState<V>, name: string): (r: (Lookup, AttrState<V>))
    ensures InheritedMember(name) && name !in st.nameMap ==> r.1 == st && r.0.InheritedValue?
    ensures !InheritedMember(name) ==> r == (Placeholder(AddAttributeNameSpec(st, name).0), AddAttributeNameSpec(st, name).1)
  {
    if name in st.nameMap then (Placeholder(st.nameMap[name]), st)
    else if InheritedMember(name) then (InheritedValue(name), st)
    else
      var (p, st1) := AddAttributeNameSpec(st, name);
      (Placeholder(p), st1)
  }

  /** The discrepancy: an attribute called `toString` is not substituted and gets no
      entry in `names`, whereas the own-property test registers `#attr0` for it. */
  lemma InheritedNameNotSubstituted()
    ensures AddAttributeNameAsWritten(Empty<int>(), "toString").0 == InheritedValue("toString")
    ensures AddAttributeNameAsWritten(Empty<int>(), "toString").1.names == map[]
    ensures AddAttributeNameSpec(Empty<int>(), "toString").0 == NamePlaceholder(0)
    ensures AddAttributeNameSpec(Empty<int>(), "toString").1.names == map[NamePlaceholder(0) := "toString"]
  {
  }
}
