/** Function expressions such as `attribute_exists(#attr0)`: the arguments are
    serialised left to right against a shared substitution context. */
module FunctionExpression {
  import opened Text
  import opened AttributePath
  import opened ExpressionAttributes

  /** An argument is an attribute path, a nested function expression or any other
      value. */
  datatype FnArg<V> = PathArg(path: AttributePath) | NestedArg(fn: FunctionExpression<V>) | ValueArg(value: V)

  datatype FunctionExpression<V> = FunctionExpression(name: string, args: seq<FnArg<V>>)

  /** `serialize`: the name followed by the serialised arguments in parentheses. */
  function SerializeSpec<V>(st: AttrState<V>, f: FunctionExpression<V>): (r: (string, AttrState<V>))
    decreases f
  {
    var (parts, st1) := ArgsSpec(st, f, f.args);
    (f.name + "(" + Join(parts, ", ") + ")", st1)
  }

  /** The serialised forms of the first `|args|` arguments of `parent`. */
  function ArgsSpec<V>(st: AttrState<V>, ghost parent: FunctionExpression<V>, args: seq<FnArg<V>>)
    : (r: (seq<string>, AttrState<V>))
    requires |args| <= |parent.args| && args == parent.args[..|args|]
    ensures |r.0| == |args|
    decreases parent, |args|
  {
    if |args| == 0 then ([], st)
    else
      var (parts, st1) := ArgsSpec(st, parent, args[..|args| - 1]);
      var (p, st2) := ArgSpec(st1, parent, args[|args| - 1]);
      (parts + [p], st2)
  }

  function ArgSpec<V>(st: AttrState<V>, ghost parent: FunctionExpression<V>, arg: FnArg<V>)
    : (string, AttrState<V>)
    requires arg in parent.args
    decreases parent, 0
  {
    match arg
    case PathArg(path) => AddNameSpec(st, path.elements)
    case NestedArg(g) => SerializeSpec(st, g)
    case ValueArg(v) => AddValueSpec(st, v)
  }

  method Serialize<V>(f: FunctionExpression<V>, attributes: ExpressionAttributes<V>) returns (s: string)
    requires attributes.Valid()
    modifies attributes
    ensures (s, attributes.State()) == SerializeSpec(old(attributes.State()), f)
    ensures attributes.Valid()
    decreases f
  {
    var parts: seq<string> := [];
    var i := 0;
    while i < |f.args|
      invariant 0 <= i <= |f.args|
      invariant (parts, attributes.State()) == ArgsSpec(old(attributes.State()), f, f.args[..i])
      invariant attributes.Valid()
    {
      assert f.args[..i + 1][..i] == f.args[..i];
      var arg := f.args[i];
      var p;
      match arg {
        case PathArg(path) => p := attributes.AddName(path);
        case NestedArg(g) => p := Serialize(g, attributes);
        case ValueArg(v) => p := attributes.AddValue(v);
      }
      parts := parts + [p];
      i := i + 1;
    }
    assert f.args[..i] == f.args;
    s := f.name + "(" + Join(parts, ", ") + ")";
  }

  /** Serialising keeps the substitution context consistent. */
  lemma {:induction false} SerializeValid<V>(st: AttrState<V>, f: FunctionExpression<V>)
    requires ValidState(st)
    ensures ValidState(SerializeSpec(st, f).1)
    decreases f
  {
    ArgsValid(st, f, f.args);
  }

  lemma {:induction false} ArgsValid<V>(st: AttrState<V>, parent: FunctionExpression<V>, args: seq<FnArg<V>>)
    requires |args| <= |parent.args| && args == parent.args[..|args|]
    requires ValidState(st)
    ensures ValidState(ArgsSpec(st, parent, args).1)
    decreases parent, |args|
  {
    if |args| > 0 {
      ArgsValid(st, parent, args[..|args| - 1]);
      var st1 := ArgsSpec(st, parent, args[..|args| - 1]).1;
      match args[|args| - 1]
      case PathArg(path) => EscapeFoldValid(st1, path.elements);
      case NestedArg(g) => SerializeValid(st1, g);
      case ValueArg(v) => AddValueValid(st1, v);
    }
  }

  /** Serialising only adds: names and values already substituted keep their
      placeholders, and the counter never goes back. */
  lemma {:induction false} SerializeExtends<V>(st: AttrState<V>, f: FunctionExpression<V>)
    requires ValidState(st)
    ensures Extends(st.nameMap, SerializeSpec(st, f).1.nameMap)
    ensures forall p :: p in st.values ==> p in SerializeSpec(st, f).1.values
                                           && SerializeSpec(st, f).1.values[p] == st.values[p]
    ensures SerializeSpec(st, f).1.ctr >= st.ctr
    decreases f
  {
    ArgsExtends(st, f, f.args);
  }

  lemma {:induction false} ArgsExtends<V>(st: AttrState<V>, parent: FunctionExpression<V>, args: seq<FnArg<V>>)
    requires |args| <= |parent.args| && args == parent.args[..|args|]
    requires ValidState(st)
    ensures Extends(st.nameMap, ArgsSpec(st, parent, args).1.nameMap)
    ensures forall p :: p in st.values ==> p in ArgsSpec(st, parent, args).1.values
                                           && ArgsSpec(st, parent, args).1.values[p] == st.values[p]
    ensures ArgsSpec(st, parent, args).1.ctr >= st.ctr
    decreases parent, |args|
  {
    if |args| > 0 {
      ArgsExtends(st, parent, args[..|args| - 1]);
      ArgsValid(st, parent, args[..|args| - 1]);
      var st1 := ArgsSpec(st, parent, args[..|args| - 1]).1;
      match args[|args| - 1]
      case PathArg(path) => EscapeFoldRenders(st1, path.elements);
      case NestedArg(g) => SerializeExtends(st1, g);
      case ValueArg(v) => AddValueFresh(st1, v);
    }
  }

  lemma ArgsSnoc<V>(st: AttrState<V>, parent: FunctionExpression<V>, n: nat)
    requires 0 < n <= |parent.args|
    ensures ArgsSpec(st, parent, parent.args[..n])
         == (var (parts, st1) := ArgsSpec(st, parent, parent.args[..n - 1]);
             var (p, st2) := ArgSpec(st1, parent, parent.args[n - 1]);
             (parts + [p], st2))
  {
    assert parent.args[..n][..n - 1] == parent.args[..n - 1];
  }

  lemma ArgsThree<V>(st: AttrState<V>, f: FunctionExpression<V>)
    requires |f.args| == 3
    ensures var (p1, st1) := ArgSpec(st, f, f.args[0]);
            var (p2, st2) := ArgSpec(st1, f, f.args[1]);
            var (p3, st3) := ArgSpec(st2, f, f.args[2]);
            ArgsSpec(st, f, f.args) == ([p1, p2, p3], st3)
  {
    var (p1, st1) := ArgSpec(st, f, f.args[0]);
    var (p2, st2) := ArgSpec(st1, f, f.args[1]);
    ArgsSnoc(st, f, 1);
    assert f.args[..0] == [];
    assert [] + [p1] == [p1];
    ArgsSnoc(st, f, 2);
    assert [p1] + [p2] == [p1, p2];
    ArgsSnoc(st, f, 3);
    assert f.args[..3] == f.args;
    var p3 := ArgSpec(st2, f, f.args[2]).0;
    assert [p1, p2] + [p3] == [p1, p2, p3];
  }

  lemma ArgsTwo<V>(st: AttrState<V>, f: FunctionExpression<V>)
    requires |f.args| == 2
    ensures var (p1, st1) := ArgSpec(st, f, f.args[0]);
            var (p2, st2) := ArgSpec(st1, f, f.args[1]);
            ArgsSpec(st, f, f.args) == ([p1, p2], st2)
  {
    var (p1, st1) := ArgSpec(st, f, f.args[0]);
    ArgsSnoc(st, f, 1);
    assert f.args[..0] == [];
    assert ArgsSpec(st, f, f.args[..0]) == ([], st);
    assert [] + [p1] == [p1];
    assert ArgsSpec(st, f, f.args[..1]) == ([p1], st1);
    ArgsSnoc(st, f, 2);
    assert f.args[..2] == f.args;
    var p2 := ArgSpec(st1, f, f.args[1]).0;
    assert [p1] + [p2] == [p1, p2];
  }

  lemma ArgsOne<V>(st: AttrState<V>, f: FunctionExpression<V>)
    requires |f.args| == 1
    ensures var (p1, st1) := ArgSpec(st, f, f.args[0]);
            ArgsSpec(st, f, f.args) == ([p1], st1)
  {
    ArgsSnoc(st, f, 1);
    assert f.args[..0] == [] && f.args[..1] == f.args;
    assert [] + [ArgSpec(st, f, f.args[0]).0] == [ArgSpec(st, f, f.args[0]).0];
    assert ArgsSpec(st, f, f.args[..0]) == ([], st);
  }

  /** Placeholder numbering follows argument order: `foo(#attr0, :val1)`. */
  lemma ExamplePathThenValue(v: int)
    ensures SerializeSpec(Empty(), FunctionExpression("foo", [PathArg(AttributePath([AttributeName("bar")])), ValueArg(v)])).0
         == "foo(#attr0, :val1)"
  {
    var f := FunctionExpression("foo", [PathArg(AttributePath([AttributeName("bar")])), ValueArg(v)]);
    var e0 := Empty<int>();
    assert NamePlaceholder(0) == "#attr0" && ValuePlaceholder(1) == ":val1";
    AddNameSingle(e0, "bar");
    var s1 := AddAttributeNameSpec(e0, "bar").1;
    assert ArgSpec(e0, f, f.args[0]) == ("#attr0", s1);
    assert ArgSpec(s1, f, f.args[1]).0 == ":val1";
    ArgsTwo(e0, f);
    JoinPair("#attr0", ":val1", ", ");
    PathThenValueText();
  }

  lemma PathThenValueText()
    ensures "foo" + "(" + ("#attr0" + ", " + ":val1") + ")" == "foo(#attr0, :val1)"
  {
  }

  /** With `bar` already substituted by `#attr0`, `fizz(buzz(bar))` reuses it and
      changes nothing. */
  lemma ExampleNestedInner<V>(st: AttrState<V>)
    requires "bar" in st.nameMap && st.nameMap["bar"] == "#attr0"
    ensures var buzz := FunctionExpression("buzz", [PathArg(AttributePath([AttributeName("bar")]))]);
            SerializeSpec(st, FunctionExpression("fizz", [NestedArg(buzz)])) == ("fizz(buzz(#attr0))", st)
  {
    var bar := PathArg(AttributePath([AttributeName("bar")]));
    var buzz := FunctionExpression("buzz", [bar]);
    var fizz := FunctionExpression("fizz", [NestedArg(buzz)]);
    AddNameSingle(st, "bar");
    assert ArgSpec(st, buzz, buzz.args[0]) == ("#attr0", st);
    ArgsOne(st, buzz);
    assert Join(["#attr0"], ", ") == "#attr0";
    assert "buzz" + "(" + "#attr0" + ")" == "buzz(#attr0)";
    assert SerializeSpec(st, buzz) == ("buzz(#attr0)", st);
    assert ArgSpec(st, fizz, fizz.args[0]) == ("buzz(#attr0)", st);
    ArgsOne(st, fizz);
    assert Join(["buzz(#attr0)"], ", ") == "buzz(#attr0)";
    assert "fizz" + "(" + "buzz(#attr0)" + ")" == "fizz(buzz(#attr0))";
  }

  lemma ExampleNestedArgs(v: int, f: FunctionExpression<int>)
    requires f == FunctionExpression("foo", [PathArg(AttributePath([AttributeName("bar")])), ValueArg(v),
                   NestedArg(FunctionExpression("fizz", [NestedArg(FunctionExpression("buzz",
                     [PathArg(AttributePath([AttributeName("bar")]))]))]))])
    ensures ArgsSpec(Empty(), f, f.args).0 == ["#attr0", ":val1", "fizz(buzz(#attr0))"]
  {
    var e0 := Empty<int>();
    assert NamePlaceholder(0) == "#attr0" && ValuePlaceholder(1) == ":val1";
    AddNameSingle(e0, "bar");
    var s1 := AddAttributeNameSpec(e0, "bar").1;
    assert s1.nameMap == map["bar" := "#attr0"];
    var s2 := AddValueSpec(s1, v).1;
    ExampleNestedInner(s2);
    assert ArgSpec(e0, f, f.args[0]) == ("#attr0", s1);
    assert ArgSpec(s1, f, f.args[1]) == (":val1", s2);
    assert ArgSpec(s2, f, f.args[2]) == ("fizz(buzz(#attr0))", s2);
    ArgsThree(e0, f);
  }

  /** A path repeated inside nested calls reuses its placeholder:
      `foo(#attr0, :val1, fizz(buzz(#attr0)))`. */
  lemma ExampleNested(v: int, f: FunctionExpression<int>)
    requires f == FunctionExpression("foo", [PathArg(AttributePath([AttributeName("bar")])), ValueArg(v),
                   NestedArg(FunctionExpression("fizz", [NestedArg(FunctionExpression("buzz",
                     [PathArg(AttributePath([AttributeName("bar")]))]))]))])
    ensures SerializeSpec(Empty(), f).0 == "foo(#attr0, :val1, fizz(buzz(#attr0)))"
  {
    ExampleNestedArgs(v, f);
    JoinTriple("#attr0", ":val1", "fizz(buzz(#attr0))", ", ");
    NestedText();
  }

  lemma NestedText()
    ensures "foo" + "(" + ("#attr0" + ", " + ":val1" + ", " + "fizz(buzz(#attr0))") + ")"
         == "foo(#attr0, :val1, fizz(buzz(#attr0)))"
  {
  }
}
