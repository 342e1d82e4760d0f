/** `BinarySet`: a set of binary values in which membership is decided by the
    bytes a value covers, not by its identity or the kind of view it is. */
module BinarySets {
  import opened Values

  /** An `ArrayBuffer`, or a view onto a window of one (`Uint8Array`,
      `Uint32Array`, `DataView`, ...). */
  datatype RawBinary =
    | ArrayBuffer(bytes: seq<bv8>)
    | ArrayBufferView(buffer: seq<bv8>, byteOffset: nat, byteLength: nat)

  /** A view always lies inside its buffer. */
  type BinaryValue = v: RawBinary | v.ArrayBuffer? || v.byteOffset + v.byteLength <= |v.buffer|
    witness ArrayBuffer([])

  /** `getBinaryView`: the bytes the value covers. */
  function Content(v: BinaryValue): (c: seq<bv8>)
    ensures v.ArrayBufferView? ==> |c| == v.byteLength
  {
    match v
    case ArrayBuffer(bytes) => bytes
    case ArrayBufferView(buffer, off, len) => buffer[off..off + len]
  }

  function Contents(vs: seq<BinaryValue>): (cs: seq<seq<bv8>>)
    ensures |cs| == |vs| && forall i :: 0 <= i < |vs| ==> cs[i] == Content(vs[i])
  {
    seq(|vs|, i requires 0 <= i < |vs| => Content(vs[i]))
  }

  /** Some stored value covers the bytes `c`. */
  predicate Holds(vs: seq<BinaryValue>, c: seq<bv8>)
  {
    exists i :: 0 <= i < |vs| && Content(vs[i]) == c
  }

  /** `add` (through the inherited set logic): a non-empty value not yet held is appended. */
  function AddSpec(vs: seq<BinaryValue>, v: BinaryValue): seq<BinaryValue>
  {
    if |Content(v)| > 0 && !Holds(vs, Content(v)) then vs + [v] else vs
  }

  /** The values a set built from `vs` holds, in insertion order. */
  function FromSpec(vs: seq<BinaryValue>): seq<BinaryValue>
    decreases |vs|
  {
    if |vs| == 0 then [] else AddSpec(FromSpec(vs[..|vs| - 1]), vs[|vs| - 1])
  }

  /** The same construction on contents alone: empty and repeated byte strings are dropped. */
  function BinarySetOf(bs: seq<seq<bv8>>): (r: seq<seq<bv8>>)
    ensures forall b :: b in r <==> b in bs && |b| > 0
    decreases |bs|
  {
    if |bs| == 0 then []
    else
      var prev := BinarySetOf(bs[..|bs| - 1]);
      var b := bs[|bs| - 1];
      if |b| == 0 || b in prev then prev else prev + [b]
  }

  /** `delete`'s filter: every value not covering `c`, in the original order. */
  function Without(vs: seq<BinaryValue>, c: seq<bv8>): (r: seq<BinaryValue>)
    ensures |r| <= |vs|
    decreases |vs|
  {
    if |vs| == 0 then []
    else Without(vs[..|vs| - 1], c) + if Content(vs[|vs| - 1]) == c then [] else [vs[|vs| - 1]]
  }

  /** The set's representation invariant: held values are non-empty and cover distinct bytes. */
  predicate ValidValues(vs: seq<BinaryValue>)
  {
    (forall i :: 0 <= i < |vs| ==> |Content(vs[i])| > 0) && Distinct(Contents(vs))
  }

  class BinarySet {
    var values: seq<BinaryValue>

    ghost predicate Valid()
      reads this
    {
      ValidValues(values)
    }

    /** `new BinarySet(iterable)`: every value is added in turn. */
    constructor (iterable: seq<BinaryValue>)
      ensures Valid()
      ensures values == FromSpec(iterable)
    {
      values := [];
      new;
      var i := 0;
      while i < |iterable|
        invariant 0 <= i <= |iterable|
        invariant Valid()
        invariant values == FromSpec(iterable[..i])
        modifies this
      {
        assert iterable[..i + 1][..i] == iterable[..i];
        Add(iterable[i]);
        i := i + 1;
      }
      assert iterable[..i] == iterable;
    }

    /** `add`: zero-length values and values already held are ignored. */
    method Add(value: BinaryValue)
      requires Valid()
      modifies this
      ensures Valid()
      ensures values == AddSpec(old(values), value)
    {
      if |Content(value)| > 0 {
        var present := Has(value);
        if !present {
          AddKeepsValid(values, value);
          values := values + [value];
        }
      }
    }

    /** `has`: a held value covers the same bytes. */
    method Has(value: BinaryValue) returns (r: bool)
      ensures r <==> Holds(values, Content(value))
    {
      var i := 0;
      while i < |values|
        invariant 0 <= i <= |values|
        invariant forall j :: 0 <= j < i ==> Content(values[j]) != Content(value)
      {
        var same := BinaryEquals(values[i], value);
        if same {
          return true;
        }
        i := i + 1;
      }
      return false;
    }

    /** `delete`: every value covering the same bytes is removed; the result
        says whether any was. */
    method Delete(value: BinaryValue) returns (removed: bool)
      requires Valid()
      modifies this
      ensures Valid()
      ensures values == Without(old(values), Content(value))
      ensures removed <==> Holds(old(values), Content(value))
    {
      var held := values;
      var scrubbed: seq<BinaryValue> := [];
      var i := 0;
      while i < |held|
        invariant 0 <= i <= |held|
        invariant scrubbed == Without(held[..i], Content(value))
      {
        WithoutStep(held[..i + 1], Content(value));
        assert held[..i + 1][..i] == held[..i];
        var same := BinaryEquals(held[i], value);
        if !same {
          scrubbed := scrubbed + [held[i]];
        }
        i := i + 1;
      }
      assert held[..i] == held;
      WithoutShrinks(held, Content(value));
      WithoutKeepsValid(held, Content(value));
      var numberRemoved := |held| - |scrubbed|;
      values := scrubbed;
      removed := numberRemoved > 0;
    }
  }

  /** `binaryEquals`: equal lengths and equal bytes at every index. */
  method BinaryEquals(a: BinaryValue, b: BinaryValue) returns (r: bool)
    ensures r <==> Content(a) == Content(b)
  {
    var x := Content(a);
    var y := Content(b);
    if |x| != |y| {
      return false;
    }
    var i := 0;
    while i < |x|
      invariant 0 <= i <= |x|
      invariant x[..i] == y[..i]
    {
      if x[i] != y[i] {
        return false;
      }
      assert x[..i + 1] == x[..i] + [x[i]] && y[..i + 1] == y[..i] + [y[i]];
      i := i + 1;
    }
    assert x == x[..i] && y == y[..i];
    return true;
  }

  // ---------------------------------------------------------------------------
  // Properties

  lemma AddKeepsValid(vs: seq<BinaryValue>, v: BinaryValue)
    requires ValidValues(vs) && |Content(v)| > 0 && !Holds(vs, Content(v))
    ensures ValidValues(vs + [v])
  {
    var ws := vs + [v];
    forall i, j | 0 <= i < j < |ws| ensures Contents(ws)[i] != Contents(ws)[j] {
      if j == |vs| {
        assert Content(ws[i]) == Content(vs[i]);
      } else {
        assert Contents(vs)[i] != Contents(vs)[j];
      }
    }
  }

  /** Values not covering `c` survive `Without`; values covering `c` do not. */
  lemma {:induction false} WithoutMembers(vs: seq<BinaryValue>, c: seq<bv8>, v: BinaryValue)
    ensures v in Without(vs, c) <==> v in vs && Content(v) != c
    decreases |vs|
  {
    if |vs| > 0 {
      WithoutMembers(vs[..|vs| - 1], c, v);
      assert vs == vs[..|vs| - 1] + [vs[|vs| - 1]];
    }
  }

  /** `Without` shortens the sequence exactly when some value covers `c`. */
  lemma {:induction false} WithoutShrinks(vs: seq<BinaryValue>, c: seq<bv8>)
    ensures |Without(vs, c)| < |vs| <==> Holds(vs, c)
    decreases |vs|
  {
    if |vs| > 0 {
      var pre := vs[..|vs| - 1];
      WithoutShrinks(pre, c);
      HoldsSnoc(vs, c);
      WithoutStep(vs, c);
    }
  }

  /** A value covers `c` exactly when one before the last does or the last does. */
  lemma HoldsSnoc(vs: seq<BinaryValue>, c: seq<bv8>)
    requires |vs| > 0
    ensures Holds(vs, c) <==> Holds(vs[..|vs| - 1], c) || Content(vs[|vs| - 1]) == c
  {
    var pre := vs[..|vs| - 1];
    if Holds(pre, c) {
      var i :| 0 <= i < |pre| && Content(pre[i]) == c;
      assert vs[i] == pre[i];
    }
    if Holds(vs, c) && Content(vs[|vs| - 1]) != c {
      var i :| 0 <= i < |vs| && Content(vs[i]) == c;
      assert vs[i] == pre[i];
    }
  }

  /** The last value is dropped exactly when it covers `c`. */
  lemma WithoutStep(vs: seq<BinaryValue>, c: seq<bv8>)
    requires |vs| > 0
    ensures var w := Without(vs[..|vs| - 1], c);
      Without(vs, c) == if Content(vs[|vs| - 1]) == c then w else w + [vs[|vs| - 1]]
  {
  }

  lemma {:induction false} WithoutKeepsValid(vs: seq<BinaryValue>, c: seq<bv8>)
    requires ValidValues(vs)
    ensures ValidValues(Without(vs, c))
    decreases |vs|
  {
    if |vs| > 0 {
      var pre := vs[..|vs| - 1];
      var last := vs[|vs| - 1];
      assert ValidValues(pre) by {
        forall i, j | 0 <= i < j < |pre| ensures Contents(pre)[i] != Contents(pre)[j] {
          assert Contents(vs)[i] != Contents(vs)[j];
        }
      }
      WithoutKeepsValid(pre, c);
      if Content(last) != c {
        var w := Without(pre, c);
        assert !Holds(w, Content(last)) by {
          if Holds(w, Content(last)) {
            var i :| 0 <= i < |w| && Content(w[i]) == Content(last);
            WithoutMembers(pre, c, w[i]);
            assert false;
          }
        }
        AddKeepsValid(w, last);
      }
    }
  }

  /** After `delete(v)`, `has(v)` is false. */
  lemma DeletedIsGone(vs: seq<BinaryValue>, c: seq<bv8>)
    ensures !Holds(Without(vs, c), c)
  {
    if Holds(Without(vs, c), c) {
      var i :| 0 <= i < |Without(vs, c)| && Content(Without(vs, c)[i]) == c;
      WithoutMembers(vs, c, Without(vs, c)[i]);
    }
  }

  /** Adding a value already held, or an empty one, changes nothing; adding
      twice is adding once. */
  lemma AddIdempotent(vs: seq<BinaryValue>, v: BinaryValue)
    ensures AddSpec(AddSpec(vs, v), v) == AddSpec(vs, v)
    ensures |Content(v)| == 0 ==> AddSpec(vs, v) == vs
  {
    if |Content(v)| > 0 && !Holds(vs, Content(v)) {
      assert Content((vs + [v])[|vs|]) == Content(v);
    }
  }

  /** Membership depends on the covered bytes only: a view and the buffer
      holding exactly its bytes are the same member. */
  lemma ViewAndBufferAgree(buffer: seq<bv8>, off: nat, len: nat, vs: seq<BinaryValue>)
    requires off + len <= |buffer|
    ensures Holds(vs, Content(ArrayBufferView(buffer, off, len))) == Holds(vs, Content(ArrayBuffer(buffer[off..off + len])))
  {
  }

  /** A built set holds exactly the contents `BinarySetOf` keeps. */
  lemma {:induction false} FromSpecContents(vs: seq<BinaryValue>)
    ensures Contents(FromSpec(vs)) == BinarySetOf(Contents(vs))
    decreases |vs|
  {
    if |vs| > 0 {
      var pre := vs[..|vs| - 1];
      FromSpecContents(pre);
      assert Contents(vs)[..|vs| - 1] == Contents(pre);
      var prev := FromSpec(pre);
      var c := Content(vs[|vs| - 1]);
      assert Holds(prev, c) <==> c in Contents(prev) by {
        if c in Contents(prev) {
          var i :| 0 <= i < |Contents(prev)| && Contents(prev)[i] == c;
        }
      }
      if |c| > 0 && !Holds(prev, c) {
        assert Contents(prev + [vs[|vs| - 1]]) == Contents(prev) + [c];
      }
    }
  }

  /** Distinct non-empty byte strings are kept as they are. */
  lemma {:induction false} BinarySetOfDistinct(bs: seq<seq<bv8>>)
    requires Distinct(bs) && forall i :: 0 <= i < |bs| ==> |bs[i]| > 0
    ensures BinarySetOf(bs) == bs
    decreases |bs|
  {
    if |bs| > 0 {
      var n := |bs| - 1;
      var pre := bs[..n];
      assert forall i :: 0 <= i < n ==> pre[i] == bs[i];
      BinarySetOfDistinct(pre);
      assert bs[n] !in pre by {
        forall i | 0 <= i < n
          ensures pre[i] != bs[n]
        {
          assert bs[i] != bs[n];
        }
      }
      assert pre + [bs[n]] == bs;
    }
  }
}
