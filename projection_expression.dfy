/** Projection expressions: the projected paths, each substituted through the
    shared context, joined by ", ". */
module ProjectionExpression {
  import opened Wrappers
  import opened Text
  import opened AttributePath
  import opened ExpressionAttributes

  /** A projected attribute, given as a path or as a string still to be parsed. */
  datatype Projected = PathItem(path: AttributePath) | StringItem(text: string)

  /** `addName` of one projected item. */
  function AddItemSpec<V>(st: AttrState<V>, item: Projected): (Result<string>, AttrState<V>)
  {
    match item
    case PathItem(p) =>
      var (s, st1) := AddNameSpec(st, p.elements);
      (Ok(s), st1)
    case StringItem(t) =>
      match ParsePathSpec(t)
      case Err(e) => (Err(e), st)
      case Ok(elements) =>
        var (s, st1) := AddNameSpec(st, elements);
        (Ok(s), st1)
  }

  /** The entries pushed for `items`, in order; the first item that does not parse
      stops the loop with its error. */
  function EntriesSpec<V>(st: AttrState<V>, items: seq<Projected>): (r: (Result<seq<string>>, AttrState<V>))
    ensures r.0.Ok? ==> |r.0.value| == |items|
    decreases |items|
  {
    if |items| == 0 then (Ok([]), st)
    else
      var (r, st1) := EntriesSpec(st, items[..|items| - 1]);
      if r.Err? then (r, st1)
      else
        var (e, st2) := AddItemSpec(st1, items[|items| - 1]);
        if e.Err? then (Err(e.error), st2) else (Ok(r.value + [e.value]), st2)
  }

  function SerializeProjectionSpec<V>(st: AttrState<V>, items: seq<Projected>): (Result<string>, AttrState<V>)
  {
    var (r, st1) := EntriesSpec(st, items);
    (if r.Ok? then Ok(Join(r.value, ", ")) else Err(r.error), st1)
  }

  method AddItem<V>(item: Projected, attributes: ExpressionAttributes<V>) returns (r: Result<string>)
    requires attributes.Valid()
    modifies attributes
    ensures (r, attributes.State()) == AddItemSpec(old(attributes.State()), item)
    ensures attributes.Valid()
  {
    match item
    case PathItem(p) =>
      var s := attributes.AddName(p);
      r := Ok(s);
    case StringItem(t) =>
      r := attributes.AddNameString(t);
  }

  /** `serializeProjectionExpression`. */
  method SerializeProjection<V>(projection: seq<Projected>, attributes: ExpressionAttributes<V>)
    returns (r: Result<string>)
    requires attributes.Valid()
    modifies attributes
    ensures (r, attributes.State()) == SerializeProjectionSpec(old(attributes.State()), projection)
    ensures attributes.Valid()
  {
    var serialized: seq<string> := [];
    var i := 0;
    while i < |projection|
      invariant 0 <= i <= |projection|
      invariant (Ok(serialized), attributes.State()) == EntriesSpec(old(attributes.State()), projection[..i])
      invariant attributes.Valid()
    {
      assert projection[..i + 1][..i] == projection[..i];
      var entry := AddItem(projection[i], attributes);
      if entry.Err? {
        assert projection[..i + 1] == projection[..i] + [projection[i]];
        PrefixError(old(attributes.State()), projection, i + 1);
        return Err(entry.error);
      }
      serialized := serialized + [entry.value];
      i := i + 1;
    }
    assert projection[..i] == projection;
    r := Ok(Join(serialized, ", "));
  }

  /** Once an item fails, the later items are not looked at. */
  lemma {:induction false} PrefixError<V>(st: AttrState<V>, items: seq<Projected>, n: nat)
    requires n <= |items| && EntriesSpec(st, items[..n]).0.Err?
    ensures EntriesSpec(st, items) == EntriesSpec(st, items[..n])
    decreases |items| - n
  {
    if n < |items| {
      assert items[..n + 1][..n] == items[..n];
      PrefixError(st, items, n + 1);
    } else {
      assert items[..n] == items;
    }
  }

  /** An empty projection gives the empty string and changes nothing. */
  lemma EmptyProjection<V>(st: AttrState<V>)
    ensures SerializeProjectionSpec(st, []) == (Ok(""), st)
  {
  }

  /** Projecting the same path twice gives the same entry twice. */
  lemma RepeatedPath<V>(st: AttrState<V>, p: AttributePath)
    ensures var (r, _) := EntriesSpec(st, [PathItem(p), PathItem(p)]);
            r.Ok? && |r.value| == 2 && r.value[0] == r.value[1]
  {
    var items := [PathItem(p), PathItem(p)];
    assert items[..1] == [PathItem(p)];
    assert items[..1][..0] == [];
    AddNameIdempotent(st, p.elements);
    var (s, st1) := AddNameSpec(st, p.elements);
    assert EntriesSpec(st, items[..1][..0]) == (Ok([]), st);
    assert [] + [s] == [s];
    assert EntriesSpec(st, items[..1]) == (Ok([s]), st1);
    assert AddItemSpec(st1, PathItem(p)) == (Ok(s), st1);
    assert items[..2] == items;
    assert EntriesSpec(st, items) == (Ok([s] + [s]), st1);
  }

  /** A string item and the path it parses to give the same entry and the same table. */
  lemma StringLikePath<V>(st: AttrState<V>, t: string)
    requires ParsePathSpec(t).Ok?
    ensures AddItemSpec(st, StringItem(t)) == AddItemSpec(st, PathItem(AttributePath(ParsePathSpec(t).value)))
  {
  }

  /** Two projected properties serialise to `#attr0, #attr1`. */
  lemma ExampleTwoProperties(items: seq<Projected>)
    requires items == [PathItem(AttributePath([AttributeName("fizz")])), PathItem(AttributePath([AttributeName("pop")]))]
    ensures SerializeProjectionSpec(Empty<int>(), items).0 == Ok("#attr0, #attr1")
  {
    var e0 := Empty<int>();
    assert NamePlaceholder(0) == "#attr0" && NamePlaceholder(1) == "#attr1";
    AddNameSingle(e0, "fizz");
    var s1 := AddAttributeNameSpec(e0, "fizz").1;
    assert AddItemSpec(e0, items[0]) == (Ok("#attr0"), s1);
    AddNameSingle(s1, "pop");
    assert AddItemSpec(s1, items[1]).0 == Ok("#attr1");
    assert items[..1] == [items[0]] && items[..1][..0] == [];
    assert EntriesSpec(e0, items[..1][..0]) == (Ok([]), e0);
    assert [] + ["#attr0"] == ["#attr0"];
    assert EntriesSpec(e0, items[..1]) == (Ok(["#attr0"]), s1);
    assert items[..2] == items;
    assert ["#attr0"] + ["#attr1"] == ["#attr0", "#attr1"];
    assert EntriesSpec(e0, items).0 == Ok(["#attr0", "#attr1"]);
    JoinSnoc(["#attr0"], ", ", "#attr1");
    assert Join(["#attr0", "#attr1"], ", ") == "#attr0, #attr1";
  }
}
