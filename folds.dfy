/** The three shapes every marshalling loop takes, stated once over
    already-computed per-element results: keep every element, keep the
    defined ones, or store the defined ones under their names. In each the
    first element that throws makes the whole loop throw. */
module Folds {
  import opened Wrappers
  import opened Values

  // ---------------------------------------------------------------------------
  // Every element kept

  /** The elements in order, or the first error. */
  function Collect<V>(rs: seq<Result<V>>): (r: Result<seq<V>>)
    decreases |rs|
  {
    if |rs| == 0 then Ok([])
    else
      match Collect(rs[..|rs| - 1])
      case Err(e) => Err(e)
      case Ok(xs) => (match rs[|rs| - 1] case Err(e) => Err(e) case Ok(x) => Ok(xs + [x]))
  }

  /** `Collect` succeeds exactly when every element does, and then holds each
      element's value at the element's position. */
  lemma {:induction false} CollectAll<V>(rs: seq<Result<V>>)
    ensures Collect(rs).Ok? <==> forall i :: 0 <= i < |rs| ==> rs[i].Ok?
    ensures Collect(rs).Ok? ==>
      |Collect(rs).value| == |rs| && forall i :: 0 <= i < |rs| ==> Collect(rs).value[i] == rs[i].value
    decreases |rs|
  {
    if |rs| > 0 {
      var n := |rs| - 1;
      CollectAll(rs[..n]);
      assert forall i :: 0 <= i < n ==> rs[..n][i] == rs[i];
    }
  }

  // ---------------------------------------------------------------------------
  // Undefined elements dropped

  /** The defined elements in order, or the first error. */
  function Gather<V>(rs: seq<Result<Option<V>>>): (r: Result<seq<V>>)
    decreases |rs|
  {
    if |rs| == 0 then Ok([])
    else
      match Gather(rs[..|rs| - 1])
      case Err(e) => Err(e)
      case Ok(xs) =>
        match rs[|rs| - 1]
        case Err(e) => Err(e)
        case Ok(None) => Ok(xs)
        case Ok(Some(x)) => Ok(xs + [x])
  }

  /** `Gather` succeeds exactly when every element does; when every element is
      defined it keeps them all, each at its own position. */
  lemma {:induction false} GatherAll<V>(rs: seq<Result<Option<V>>>)
    ensures Gather(rs).Ok? <==> forall i :: 0 <= i < |rs| ==> rs[i].Ok?
    ensures Gather(rs).Ok? ==> |Gather(rs).value| <= |rs|
    ensures (forall i :: 0 <= i < |rs| ==> rs[i].Ok? && rs[i].value.Some?) ==>
      |Gather(rs).value| == |rs| && forall i :: 0 <= i < |rs| ==> Gather(rs).value[i] == rs[i].value.value
    decreases |rs|
  {
    if |rs| > 0 {
      var n := |rs| - 1;
      GatherAll(rs[..n]);
      assert forall i :: 0 <= i < n ==> rs[..n][i] == rs[i];
    }
  }

  /** A successful `Gather` holds the defined value of every element and
      nothing else. */
  lemma GatherMembers<V>(rs: seq<Result<Option<V>>>)
    requires Gather(rs).Ok?
    ensures forall i, a :: 0 <= i < |rs| && rs[i] == Ok(Some(a)) ==> a in Gather(rs).value
    ensures forall a :: a in Gather(rs).value ==> exists i :: 0 <= i < |rs| && rs[i] == Ok(Some(a))
  {
    forall i, a | 0 <= i < |rs| && rs[i] == Ok(Some(a))
      ensures a in Gather(rs).value
    {
      GatherKeeps(rs, i);
    }
    forall a | a in Gather(rs).value
      ensures exists i :: 0 <= i < |rs| && rs[i] == Ok(Some(a))
    {
      var i := GatherSource(rs, a);
    }
  }

  lemma {:induction false} GatherKeeps<V>(rs: seq<Result<Option<V>>>, i: nat)
    requires Gather(rs).Ok? && i < |rs| && rs[i].Ok? && rs[i].value.Some?
    ensures rs[i].value.value in Gather(rs).value
    decreases |rs|
  {
    var n := |rs| - 1;
    if i < n {
      assert rs[..n][i] == rs[i];
      GatherKeeps(rs[..n], i);
    }
  }

  lemma {:induction false} GatherSource<V>(rs: seq<Result<Option<V>>>, a: V) returns (i: nat)
    requires Gather(rs).Ok? && a in Gather(rs).value
    ensures i < |rs| && rs[i] == Ok(Some(a))
    decreases |rs|
  {
    var n := |rs| - 1;
    if a in Gather(rs[..n]).value {
      i := GatherSource(rs[..n], a);
      assert rs[..n][i] == rs[i];
    } else {
      i := n;
    }
  }

  // ---------------------------------------------------------------------------
  // Defined elements stored under their names

  /** An object built by `obj[name] = value` for each defined element, in
      order, or the first error. */
  function Assemble<V>(fs: seq<(string, Result<Option<V>>)>): (r: Result<seq<(string, V)>>)
    decreases |fs|
  {
    if |fs| == 0 then Ok([])
    else
      match Assemble(fs[..|fs| - 1])
      case Err(e) => Err(e)
      case Ok(obj) =>
        match fs[|fs| - 1].1
        case Err(e) => Err(e)
        case Ok(None) => Ok(obj)
        case Ok(Some(x)) => Ok(Put(obj, fs[|fs| - 1].0, x))
  }

  /** `Assemble` succeeds exactly when every element does; it stores only the
      given names, each once; with distinct names, each name holds exactly its
      element's value and is absent exactly when that value is undefined. */
  lemma AssembleFields<V>(fs: seq<(string, Result<Option<V>>)>)
    ensures Assemble(fs).Ok? <==> forall i :: 0 <= i < |fs| ==> fs[i].1.Ok?
    ensures Assemble(fs).Ok? ==> DistinctKeys(Assemble(fs).value)
    ensures Assemble(fs).Ok? ==> forall k :: k in Keys(Assemble(fs).value) ==> k in Keys(fs)
    ensures Assemble(fs).Ok? && Distinct(Keys(fs)) ==>
      forall i :: 0 <= i < |fs| ==> Get(Assemble(fs).value, fs[i].0) == fs[i].1.value
  {
    AssembleDefined(fs);
    if Assemble(fs).Ok? {
      AssembleKeys(fs);
      if Distinct(Keys(fs)) {
        AssembleLookups(fs);
      }
    }
  }

  lemma {:induction false} AssembleDefined<V>(fs: seq<(string, Result<Option<V>>)>)
    ensures Assemble(fs).Ok? <==> forall i :: 0 <= i < |fs| ==> fs[i].1.Ok?
    decreases |fs|
  {
    if |fs| > 0 {
      var n := |fs| - 1;
      AssembleDefined(fs[..n]);
      assert forall i :: 0 <= i < n ==> fs[..n][i] == fs[i];
    }
  }

  /** The last element's value, when defined, is stored under its name. */
  lemma AssembleStep<V>(fs: seq<(string, Result<Option<V>>)>)
    requires |fs| > 0 && Assemble(fs).Ok?
    ensures Assemble(fs[..|fs| - 1]).Ok? && fs[|fs| - 1].1.Ok?
    ensures var obj := Assemble(fs[..|fs| - 1]).value; var fv := fs[|fs| - 1].1.value;
      Assemble(fs).value == if fv.Some? then Put(obj, fs[|fs| - 1].0, fv.value) else obj
  {
  }

  lemma {:induction false} AssembleKeys<V>(fs: seq<(string, Result<Option<V>>)>)
    requires Assemble(fs).Ok?
    ensures DistinctKeys(Assemble(fs).value)
    ensures forall k :: k in Keys(Assemble(fs).value) ==> k in Keys(fs)
    decreases |fs|
  {
    if |fs| > 0 {
      var n := |fs| - 1;
      AssembleStep(fs);
      AssembleKeys(fs[..n]);
      var obj := Assemble(fs[..n]).value;
      var fv := fs[n].1.value;
      assert Keys(fs[..n]) == Keys(fs)[..n];
      if fv.Some? {
        PutKeepsDistinct(obj, fs[n].0, fv.value);
        KeysPut(obj, fs[n].0, fv.value);
      }
    }
  }

  lemma {:induction false} AssembleLookups<V>(fs: seq<(string, Result<Option<V>>)>)
    requires Assemble(fs).Ok? && Distinct(Keys(fs))
    requires forall i :: 0 <= i < |fs| ==> fs[i].1.Ok?
    ensures forall i :: 0 <= i < |fs| ==> Get(Assemble(fs).value, fs[i].0) == fs[i].1.value
    decreases |fs|
  {
    if |fs| > 0 {
      var n := |fs| - 1;
      var pre := fs[..n];
      AssembleStep(fs);
      AssembleKeys(pre);
      assert Keys(pre) == Keys(fs)[..n];
      AssembleLookups(pre);
      assert forall i :: 0 <= i < n ==> pre[i] == fs[i];
      var vals := seq(|fs|, i requires 0 <= i < |fs| => fs[i].1.value);
      PutLookups(Keys(fs), vals, Assemble(pre).value);
    }
  }

  /** Every element's name with its defined value. */
  function Defined<V>(fs: seq<(string, Result<Option<V>>)>): (obj: seq<(string, V)>)
    requires forall i :: 0 <= i < |fs| ==> fs[i].1.Ok? && fs[i].1.value.Some?
    ensures |obj| == |fs| && Keys(obj) == Keys(fs)
    ensures forall i :: 0 <= i < |fs| ==> obj[i].1 == fs[i].1.value.value
  {
    seq(|fs|, i requires 0 <= i < |fs| => (fs[i].0, fs[i].1.value.value))
  }

  /** With distinct names and every element defined, `Assemble` stores one
      entry per element, in order. */
  lemma {:induction false} AssembleAll<V>(fs: seq<(string, Result<Option<V>>)>)
    requires Distinct(Keys(fs))
    requires forall i :: 0 <= i < |fs| ==> fs[i].1.Ok? && fs[i].1.value.Some?
    ensures Assemble(fs) == Ok(Defined(fs))
    decreases |fs|
  {
    if |fs| > 0 {
      var n := |fs| - 1;
      var pre := fs[..n];
      assert Keys(pre) == Keys(fs)[..n];
      AssembleAll(pre);
      DefinedSnoc(fs);
      assert fs[n].0 !in Keys(Defined(pre)) by {
        assert Keys(fs)[n] !in Keys(fs)[..n];
      }
      AssembleAppends(fs, Defined(pre));
    }
  }

  lemma DefinedSnoc<V>(fs: seq<(string, Result<Option<V>>)>)
    requires |fs| > 0 && forall i :: 0 <= i < |fs| ==> fs[i].1.Ok? && fs[i].1.value.Some?
    ensures Defined(fs) == Defined(fs[..|fs| - 1]) + [(fs[|fs| - 1].0, fs[|fs| - 1].1.value.value)]
  {
  }

  /** A defined value under a new name is appended. */
  lemma AssembleAppends<V>(fs: seq<(string, Result<Option<V>>)>, obj: seq<(string, V)>)
    requires |fs| > 0 && Assemble(fs[..|fs| - 1]) == Ok(obj)
    requires fs[|fs| - 1].1.Ok? && fs[|fs| - 1].1.value.Some? && fs[|fs| - 1].0 !in Keys(obj)
    ensures Assemble(fs) == Ok(obj + [(fs[|fs| - 1].0, fs[|fs| - 1].1.value.value)])
  {
  }
}
