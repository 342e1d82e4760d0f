/** The two value worlds the marshallers translate between: JavaScript values
    as the mapper's callers hold them, and DynamoDB attribute values as they
    travel on the wire. JavaScript objects and DynamoDB maps are both ordered
    association lists, in property-enumeration order. */
module Values {
  import opened Wrappers
  import opened Text

  /** A JavaScript value. `Num` is a finite integral `number`, `NaN` the
      not-a-number value; `Date(ms)` a valid date at epoch milliseconds `ms`;
      `BinSet` a `BinarySet` (byte strings compared by content). Functions and
      symbols carry only an identity. */
  datatype JsValue =
    | Undefined
    | Null
    | Bool(b: bool)
    | Num(n: int)
    | NaN
    | BigInt(big: int)
    | Str(s: string)
    | Binary(bytes: seq<bv8>)
    | Array(elems: seq<JsValue>)
    | JsSet(members: seq<JsValue>)
    | JsMap(entries: seq<(JsValue, JsValue)>)
    | Object(props: seq<(string, JsValue)>)
    | Date(ms: int)
    | InvalidDate
    | BinSet(values: seq<seq<bv8>>)
    | Function(fid: nat)
    | Symbol(sid: nat)

  /** A DynamoDB `AttributeValue`. Each carries exactly one type tag;
      `Unknown` stands for a value carrying none of the known tags. */
  datatype AttributeValue =
    | S(str: string)
    | N(num: string)
    | B(bin: seq<bv8>)
    | BOOL(flag: bool)
    | NULL(nul: bool)
    | SS(strs: seq<string>)
    | NS(nums: seq<string>)
    | BS(bins: seq<seq<bv8>>)
    | L(list: seq<AttributeValue>)
    | M(entries: seq<(string, AttributeValue)>)
    | Unknown

  /** JavaScript's `typeof`. */
  function TypeOf(v: JsValue): (t: string)
    ensures t == "object" <==> !(v.Undefined? || v.Bool? || v.Num? || v.NaN? || v.BigInt? || v.Str? || v.Function? || v.Symbol?)
  {
    match v
    case Undefined => "undefined"
    case Bool(_) => "boolean"
    case Num(_) => "number"
    case NaN => "number"
    case BigInt(_) => "bigint"
    case Str(_) => "string"
    case Function(_) => "function"
    case Symbol(_) => "symbol"
    case _ => "object"
  }

  /** `Boolean(v)`: JavaScript truthiness. */
  predicate Truthy(v: JsValue)
  {
    match v
    case Undefined => false
    case Null => false
    case Bool(b) => b
    case Num(n) => n != 0
    case NaN => false
    case BigInt(n) => n != 0
    case Str(s) => s != ""
    case _ => true
  }

  /** `String(n)` / `n.toString(10)` for a JavaScript number. */
  function NumberText(v: JsValue): (t: string)
    requires v.Num? || v.NaN? || v.BigInt?
    ensures v.Num? ==> ParseInt(t) == Some(v.n)
    ensures v.BigInt? ==> ParseInt(t) == Some(v.big)
  {
    match v
    case Num(n) => ParseIntToString(n); IntToString(n)
    case BigInt(n) => ParseIntToString(n); IntToString(n)
    case NaN => "NaN"
  }

  /** `Number(text)` for the integral literals of this model: the empty string is 0,
      a signed digit string its value, anything else NaN. */
  function NumberOf(text: string): (v: JsValue)
    ensures v.Num? || v.NaN?
    ensures forall i :: ParseInt(text) == Some(i) ==> v == Num(i)
    ensures text != "" && ParseInt(text).None? ==> v == NaN
  {
    if text == "" then Num(0)
    else match ParseInt(text)
      case Some(i) => Num(i)
      case None => NaN
  }

  /** `BigInt(text)`: like `Number` but an unparsable text throws a `SyntaxError`. */
  function BigIntOf(text: string): (r: Result<JsValue>)
    ensures r.Ok? <==> text == "" || ParseInt(text).Some?
    ensures forall i :: ParseInt(text) == Some(i) ==> r == Ok(BigInt(i))
    ensures r.Err? ==> r.error == "Cannot convert " + text + " to a BigInt"
  {
    if text == "" then Ok(BigInt(0))
    else match ParseInt(text)
      case Some(i) => Ok(BigInt(i))
      case None => Err("Cannot convert " + text + " to a BigInt")
  }

  lemma NumberOfText(v: JsValue)
    requires v.Num?
    ensures NumberOf(NumberText(v)) == v
  {
  }

  predicate Distinct<T(==)>(xs: seq<T>)
  {
    forall i, j :: 0 <= i < j < |xs| ==> xs[i] != xs[j]
  }

  // ---------------------------------------------------------------------------
  // Ordered string-keyed association lists (JavaScript objects, attribute maps)

  function Keys<T>(m: seq<(string, T)>): (ks: seq<string>)
    ensures |ks| == |m|
    ensures forall i :: 0 <= i < |m| ==> ks[i] == m[i].0
  {
    seq(|m|, i requires 0 <= i < |m| => m[i].0)
  }

  lemma KeysCons<T>(m: seq<(string, T)>)
    requires |m| > 0
    ensures Keys(m) == [m[0].0] + Keys(m[1..])
  {
  }

  predicate DistinctKeys<T>(m: seq<(string, T)>)
  {
    forall i, j :: 0 <= i < j < |m| ==> m[i].0 != m[j].0
  }

  /** The value stored under `k` (the first binding of `k`), as `obj[k]` reads it. */
  function Get<T>(m: seq<(string, T)>, k: string): (r: Option<T>)
    ensures r.None? <==> k !in Keys(m)
    decreases |m|
  {
    if |m| == 0 then None
    else if m[0].0 == k then Some(m[0].1)
    else KeysCons(m); Get(m[1..], k)
  }

  /** `obj[k] = v`: an existing key keeps its position and takes the new
      value; a new key is appended. */
  function Put<T>(m: seq<(string, T)>, k: string, v: T): (r: seq<(string, T)>)
    ensures k in Keys(m) ==> |r| == |m|
    ensures k !in Keys(m) ==> r == m + [(k, v)]
    decreases |m|
  {
    if |m| == 0 then [(k, v)]
    else if m[0].0 == k then [(k, v)] + m[1..]
    else
      KeysCons(m);
      [m[0]] + Put(m[1..], k, v)
  }

  lemma {:induction false} GetPut<T>(m: seq<(string, T)>, k: string, v: T, k': string)
    ensures Get(Put(m, k, v), k') == if k' == k then Some(v) else Get(m, k')
    decreases |m|
  {
    if |m| > 0 && m[0].0 != k {
      GetPut(m[1..], k, v, k');
    }
  }

  lemma KeysPut<T>(m: seq<(string, T)>, k: string, v: T)
    ensures Keys(Put(m, k, v)) == if k in Keys(m) then Keys(m) else Keys(m) + [k]
  {
    if k in Keys(m) {
      PutSameShape(m, k, v);
    }
  }

  lemma PutKeepsDistinct<T>(m: seq<(string, T)>, k: string, v: T)
    requires DistinctKeys(m)
    ensures DistinctKeys(Put(m, k, v))
  {
    var r := Put(m, k, v);
    if k !in Keys(m) {
      assert r == m + [(k, v)];
    } else {
      PutSameShape(m, k, v);
    }
  }

  lemma {:induction false} PutSameShape<T>(m: seq<(string, T)>, k: string, v: T)
    requires k in Keys(m)
    ensures |Put(m, k, v)| == |m|
    ensures forall i :: 0 <= i < |m| ==> Put(m, k, v)[i].0 == m[i].0
    decreases |m|
  {
    KeysCons(m);
    if m[0].0 != k {
      PutSameShape(m[1..], k, v);
    }
  }

  /** With distinct keys, `Get` finds the value at the key's own position. */
  lemma {:induction false} GetDistinct<T>(m: seq<(string, T)>, i: int)
    requires DistinctKeys(m) && 0 <= i < |m|
    ensures Get(m, m[i].0) == Some(m[i].1)
    decreases |m|
  {
    if i > 0 {
      GetDistinct(m[1..], i - 1);
    }
  }

  /** The first binding in `m + [e]` is the one in `m`, if any. */
  lemma {:induction false} GetSnoc<T>(m: seq<(string, T)>, e: (string, T), k: string)
    ensures Get(m + [e], k) == if k in Keys(m) then Get(m, k) else if k == e.0 then Some(e.1) else None
    decreases |m|
  {
    if |m| > 0 {
      assert (m + [e])[1..] == m[1..] + [e];
      if m[0].0 != k {
        KeysCons(m);
        GetSnoc(m[1..], e, k);
      }
    }
  }

  /** Every binding of `Put(m, k, v)` is the new one or one of `m`. */
  lemma {:induction false} PutEntries<T>(m: seq<(string, T)>, k: string, v: T)
    ensures forall e :: e in Put(m, k, v) ==> e == (k, v) || e in m
    decreases |m|
  {
    if |m| > 0 && m[0].0 != k {
      PutEntries(m[1..], k, v);
    }
  }

  /** Storing the last of distinct names (when it has a value) keeps the
      lookups of the earlier names and makes the last one's right. */
  lemma PutLookups<T>(names: seq<string>, vals: seq<Option<T>>, m: seq<(string, T)>)
    requires |names| == |vals| > 0 && Distinct(names)
    requires forall k :: k in Keys(m) ==> k in names[..|names| - 1]
    requires forall i :: 0 <= i < |names| - 1 ==> Get(m, names[i]) == vals[i]
    ensures var n := |names| - 1;
      var r := if vals[n].Some? then Put(m, names[n], vals[n].value) else m;
      forall i :: 0 <= i < |names| ==> Get(r, names[i]) == vals[i]
  {
    var n := |names| - 1;
    var r := if vals[n].Some? then Put(m, names[n], vals[n].value) else m;
    forall i | 0 <= i < |names|
      ensures Get(r, names[i]) == vals[i]
    {
      if vals[n].Some? {
        GetPut(m, names[n], vals[n].value, names[i]);
      } else if i == n {
        assert names[n] !in names[..n];
      }
    }
  }
}
