/** `mergeConsumedCapacities`: the running total of the capacity consumed by a
    sequence of DynamoDB responses. Capacity units are exact reals here. */
module ConsumedCapacity {
  import opened Wrappers
  import opened Values

  /** A `Capacity` report; only `CapacityUnits` is merged. */
  datatype Capacity = Capacity(capacityUnits: Option<real>)

  type CapacityMap = seq<(string, Capacity)>

  /** A `ConsumedCapacity` report. */
  datatype Report = Report(
    tableName: Option<string>,
    capacityUnits: Option<real>,
    table: Option<Capacity>,
    localSecondaryIndexes: Option<CapacityMap>,
    globalSecondaryIndexes: Option<CapacityMap>)

  /** `x ?? 0`. */
  function Units(x: Option<real>): real
  {
    x.GetOr(0.0)
  }

  /** The units of a possibly absent capacity. */
  function CapUnits(c: Option<Capacity>): real
  {
    if c.Some? then Units(c.value.capacityUnits) else 0.0
  }

  /** `mergeCapacities(a, b)`: always present, holding the sum. */
  function MergeCapacities(a: Option<Capacity>, b: Option<Capacity>): (c: Capacity)
    ensures c.capacityUnits == Some(CapUnits(a) + CapUnits(b))
  {
    Capacity(Some(CapUnits(a) + CapUnits(b)))
  }

  /** The keys of `a` followed by those of `b` not already seen: the
      insertion order of `new Set([...Object.keys(a), ...Object.keys(b)])`. */
  function KeyUnion(a: seq<string>, b: seq<string>): (u: seq<string>)
    ensures forall k :: k in u <==> k in a || k in b
    ensures Distinct(a) ==> Distinct(u)
    ensures a <= u
    decreases |b|
  {
    if |b| == 0 then a
    else
      var u := KeyUnion(a, b[..|b| - 1]);
      assert forall k :: k in b[..|b| - 1] ==> k in b;
      if b[|b| - 1] in u then u else u + [b[|b| - 1]]
  }

  /** The loop of `mergeCapacityMaps` over the given keys. */
  function MapFold(keys: seq<string>, a: CapacityMap, b: CapacityMap): (out: CapacityMap)
    decreases |keys|
  {
    if |keys| == 0 then []
    else
      var k := keys[|keys| - 1];
      Put(MapFold(keys[..|keys| - 1], a, b), k, MergeCapacities(Get(a, k), Get(b, k)))
  }

  /** `mergeCapacityMaps(a, b)`. */
  function MergeCapacityMapsSpec(a: Option<CapacityMap>, b: Option<CapacityMap>): Option<CapacityMap>
  {
    if a.None? && b.None? then None
    else
      var a', b' := a.GetOr([]), b.GetOr([]);
      Some(MapFold(KeyUnion(Keys(a'), Keys(b')), a', b'))
  }

  method MergeCapacityMaps(a: Option<CapacityMap>, b: Option<CapacityMap>) returns (r: Option<CapacityMap>)
    ensures r == MergeCapacityMapsSpec(a, b)
  {
    if a.Some? || b.Some? {
      var out: CapacityMap := [];
      var a', b' := a.GetOr([]), b.GetOr([]);
      var keys := KeyUnion(Keys(a'), Keys(b'));
      for i := 0 to |keys|
        invariant out == MapFold(keys[..i], a', b')
      {
        assert keys[..i + 1][..i] == keys[..i];
        var key := keys[i];
        out := Put(out, key, MergeCapacities(Get(a', key), Get(b', key)));
      }
      assert keys[..|keys|] == keys;
      return Some(out);
    }
    return None;
  }

  const MixedTables := "Consumed capacity reports may only be merged if they describe the same table"

  /** A table name JavaScript treats as truthy. */
  predicate Named(name: Option<string>)
  {
    name.Some? && name.value != ""
  }

  /** `mergeConsumedCapacities(a, b)`: absent when both are, an error when
      both name different tables, otherwise the field-wise sum. */
  function Merge(a: Option<Report>, b: Option<Report>): (r: Result<Option<Report>>)
    ensures a.None? && b.None? ==> r == Ok(None)
    ensures r.Err? <==> a.Some? && b.Some? && Named(a.value.tableName) && Named(b.value.tableName)
                        && a.value.tableName != b.value.tableName
    ensures r.Err? ==> r.error == MixedTables
    ensures r.Ok? && (a.Some? || b.Some?) ==> r.value.Some?
  {
    if a.Some? || b.Some? then
      var a' := a.GetOr(Report(None, None, None, None, None));
      var b' := b.GetOr(Report(None, None, None, None, None));
      if Named(a'.tableName) && Named(b'.tableName) && a'.tableName != b'.tableName then
        Err(MixedTables)
      else
        Ok(Some(Report(
          if a'.tableName.Some? then a'.tableName else b'.tableName,
          Some(Units(a'.capacityUnits) + Units(b'.capacityUnits)),
          Some(MergeCapacities(a'.table, b'.table)),
          MergeCapacityMapsSpec(a'.localSecondaryIndexes, b'.localSecondaryIndexes),
          MergeCapacityMapsSpec(a'.globalSecondaryIndexes, b'.globalSecondaryIndexes))))
    else Ok(None)
  }

  // ---------------------------------------------------------------------------
  // Properties

  /** The units of a possibly absent report. */
  function TotalUnits(r: Option<Report>): real
  {
    if r.Some? then Units(r.value.capacityUnits) else 0.0
  }

  function TableUnits(r: Option<Report>): real
  {
    if r.Some? then CapUnits(r.value.table) else 0.0
  }

  /** A successful merge names the first defined table name, and its total and
      table units are the sums of the inputs'. */
  lemma MergeSums(a: Option<Report>, b: Option<Report>)
    requires Merge(a, b).Ok? && Merge(a, b).value.Some?
    ensures var m := Merge(a, b).value.value;
      && m.tableName == (if a.Some? && a.value.tableName.Some? then a.value.tableName
                         else if b.Some? then b.value.tableName else None)
      && TotalUnits(Some(m)) == TotalUnits(a) + TotalUnits(b)
      && TableUnits(Some(m)) == TableUnits(a) + TableUnits(b)
  {
  }

  lemma {:induction false} MapFoldLookups(keys: seq<string>, a: CapacityMap, b: CapacityMap)
    ensures Keys(MapFold(keys, a, b)) == KeyUnion([], keys)
    ensures forall k :: k in keys ==> Get(MapFold(keys, a, b), k) == Some(MergeCapacities(Get(a, k), Get(b, k)))
    ensures forall k :: k !in keys ==> Get(MapFold(keys, a, b), k) == None
    decreases |keys|
  {
    if |keys| > 0 {
      var pre := keys[..|keys| - 1];
      var k := keys[|keys| - 1];
      MapFoldLookups(pre, a, b);
      KeysPut(MapFold(pre, a, b), k, MergeCapacities(Get(a, k), Get(b, k)));
      forall k' ensures Get(MapFold(keys, a, b), k') == Get(Put(MapFold(pre, a, b), k, MergeCapacities(Get(a, k), Get(b, k))), k') {
      }
      forall k' {
        GetPut(MapFold(pre, a, b), k, MergeCapacities(Get(a, k), Get(b, k)), k');
      }
      assert forall k' :: k' in keys ==> k' in pre || k' == k;
    }
  }

  /** A merged index map is absent exactly when both inputs are; its keys are
      the union of theirs, each once, and each holds the sum of that index's
      units in the two inputs. */
  lemma MergeCapacityMapsEntries(a: Option<CapacityMap>, b: Option<CapacityMap>)
    ensures MergeCapacityMapsSpec(a, b).None? <==> a.None? && b.None?
    ensures MergeCapacityMapsSpec(a, b).Some? ==>
      var m := MergeCapacityMapsSpec(a, b).value;
      var a', b' := a.GetOr([]), b.GetOr([]);
      && DistinctKeys(m)
      && (forall k :: k in Keys(m) <==> k in Keys(a') || k in Keys(b'))
      && (forall k :: k in Keys(m) ==> Get(m, k) == Some(MergeCapacities(Get(a', k), Get(b', k))))
  {
    if a.Some? || b.Some? {
      var a', b' := a.GetOr([]), b.GetOr([]);
      var keys := KeyUnion(Keys(a'), Keys(b'));
      MapFoldLookups(keys, a', b');
      var m := MapFold(keys, a', b');
      assert m == MergeCapacityMapsSpec(a, b).value;
      assert Distinct(Keys(m)) by {
        assert Distinct<string>([]);
      }
      assert DistinctKeys(m) by {
        forall i, j | 0 <= i < j < |m| ensures m[i].0 != m[j].0 {
          assert Keys(m)[i] == m[i].0 && Keys(m)[j] == m[j].0;
        }
      }
      forall k ensures k in Keys(m) <==> k in Keys(a') || k in Keys(b') {
        assert k in Keys(m) <==> k in KeyUnion([], keys);
      }
      forall k | k in Keys(m)
        ensures Get(m, k) == Some(MergeCapacities(Get(a', k), Get(b', k)))
      {
        assert k in KeyUnion([], keys);
      }
    }
  }

  /** Merging is commutative on the units: the order in which pages are
      merged does not change the totals. */
  lemma MergeUnitsCommute(a: Option<Report>, b: Option<Report>)
    requires Merge(a, b).Ok?
    ensures Merge(b, a).Ok?
    ensures TotalUnits(Merge(a, b).value) == TotalUnits(Merge(b, a).value)
    ensures TableUnits(Merge(a, b).value) == TableUnits(Merge(b, a).value)
  {
  }
}
