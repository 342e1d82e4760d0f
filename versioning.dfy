/** Optimistic locking in the data mapper: a Number field flagged
    `versionAttribute` is checked against the stored record by a condition and
    moved one past its old value by every `put` and `update`. */
module Versioning {
  import opened Wrappers
  import opened Text
  import opened Values
  import opened AttributePath
  import opened SchemaTypes
  import opened Conditions
  import DM = DataMarshall
  import opened Folds

  type AttributeMap = seq<(string, AttributeValue)>

  /** `marshallValue` of the data marshaller, which `update` calls on every
      field that is neither a key nor the version. */
  type Marshaller = DM.ValueMarshaller

  /** `isVersionAttribute`. */
  predicate IsVersionAttribute(field: SchemaType)
  {
    field.node.NumberType? && field.node.versionAttribute
  }

  /** The value an update writes to the version attribute: `0`, or the
      `MathematicalExpression` `path + 1`. */
  datatype VersionValue = Zero | Increment(path: AttributePath)

  datatype VersionUpdate = VersionUpdate(condition: Condition, value: VersionValue)

  /** `handleVersionAttribute(attributeName, inputMember)`: a record without a
      version must not exist yet and starts at 0; a record with a version must
      still hold it and is incremented. The increment's path is parsed from the
      name, so a name the path parser rejects throws. */
  function HandleVersionAttribute(attributeName: string, inputMember: JsValue): (r: Result<VersionUpdate>)
    ensures inputMember.Undefined? ==> r.Ok? && r.value.value == Zero
    ensures !inputMember.Undefined? ==> (r.Ok? <==> ParsePathSpec(attributeName).Ok?)
    ensures r.Err? ==> r.error == ParsePathSpec(attributeName).error
  {
    if inputMember.Undefined? then
      Ok(VersionUpdate(FunctionCondition("attribute_not_exists", AttributePath([AttributeName(attributeName)])), Zero))
    else
      match ParsePathSpec(attributeName)
      case Err(e) => Err(e)
      case Ok(elements) => Ok(VersionUpdate(Equals(attributeName, inputMember), Increment(AttributePath(elements))))
  }

  /** The stored version a record's version property asks for: absent when the
      record carries none. */
  function Expected(inputMember: JsValue): Option<JsValue>
  {
    if inputMember.Undefined? then None else Some(inputMember)
  }

  /** What an update's version value writes over a stored version. */
  function Apply(value: VersionValue, stored: Option<JsValue>): JsValue
  {
    match value
    case Zero => Num(0)
    case Increment(_) => if stored.Some? && stored.value.Num? then Num(stored.value.n + 1) else NaN
  }

  /** The version condition holds exactly when the stored record's version is
      the one the record in hand carries (or there is none and the record has
      no version), and then the written version is 0 or one past it. */
  lemma VersionCheck(attributeName: string, inputMember: JsValue, stored: seq<(string, JsValue)>)
    requires HandleVersionAttribute(attributeName, inputMember).Ok?
    ensures var u := HandleVersionAttribute(attributeName, inputMember).value;
      && (Holds(u.condition, stored) <==> Get(stored, attributeName) == Expected(inputMember))
      && (Holds(u.condition, stored) && inputMember.Num? ==>
            Apply(u.value, Get(stored, attributeName)) == Num(inputMember.n + 1))
      && (inputMember.Undefined? ==> Apply(u.value, Get(stored, attributeName)) == Num(0))
  {
  }

  // ---------------------------------------------------------------------------
  // put

  /** The text of `Number(value.N) + 1`: a value without a numeric `N` gives NaN. */
  function NextVersionText(value: AttributeValue): (t: string)
    ensures value.N? && ParseInt(value.num).Some? ==> ParseInt(t) == Some(ParseInt(value.num).value + 1)
  {
    if value.N? then
      match NumberOf(value.num)
      case Num(i) => NumberText(Num(i + 1))
      case _ => "NaN"
    else "NaN"
  }

  /** The marshalled item with its version attribute moved on: one past the
      marshalled version, or `'0'` when the item has none. */
  function Bump(item: AttributeMap, name: string): AttributeMap
  {
    Put(item, name, BumpedValue(item, name))
  }

  /** What `put` writes to a version attribute. */
  function BumpedValue(item: AttributeMap, name: string): AttributeValue
  {
    match Get(item, name)
    case Some(v) => N(NextVersionText(v))
    case None => N("0")
  }

  /** The loop of `put` over the schema when the version check is not skipped. */
  function PutFold(schema: Schema, record: seq<(string, JsValue)>, item: AttributeMap, condition: Option<Condition>)
    : (r: Result<(AttributeMap, Option<Condition>)>)
    decreases |schema|
  {
    if |schema| == 0 then Ok((item, condition))
    else
      match PutFold(schema[..|schema| - 1], record, item, condition)
      case Err(e) => Err(e)
      case Ok((m, c)) =>
        var (key, field) := schema[|schema| - 1];
        if !IsVersionAttribute(field) then Ok((m, c))
        else
          match HandleVersionAttribute(key, Get(record, key).GetOr(Undefined))
          case Err(e) => Err(e)
          case Ok(u) => Ok((Bump(m, field.attributeName.GetOr(key)), Some(Conjoin(c, u.condition))))
  }

  /** The version handling of `put(item, {condition, skipVersionCheck})`. */
  method PutVersioning(schema: Schema, record: seq<(string, JsValue)>, item: AttributeMap,
                       condition: Option<Condition>, skipVersionCheck: bool)
    returns (r: Result<(AttributeMap, Option<Condition>)>)
    ensures skipVersionCheck ==> r == Ok((item, condition))
    ensures !skipVersionCheck ==> r == PutFold(schema, record, item, condition)
  {
    if skipVersionCheck {
      return Ok((item, condition));
    }
    var marshalled := item;
    var cond := condition;
    for i := 0 to |schema|
      invariant PutFold(schema[..i], record, item, condition) == Ok((marshalled, cond))
    {
      assert schema[..i + 1][..i] == schema[..i];
      var (key, fieldSchema) := schema[i];
      var inputMember := Get(record, key).GetOr(Undefined);
      var attributeName := fieldSchema.attributeName.GetOr(key);
      if IsVersionAttribute(fieldSchema) {
        var handled := HandleVersionAttribute(key, inputMember);
        if handled.Err? {
          PutErrSticky(schema[..i + 1], schema, record, item, condition);
          assert schema[..|schema|] == schema;
          return Err(handled.error);
        }
        match Get(marshalled, attributeName) {
          case Some(v) => marshalled := Put(marshalled, attributeName, N(NextVersionText(v)));
          case None => marshalled := Put(marshalled, attributeName, N("0"));
        }
        cond := Some(Conjoin(cond, handled.value.condition));
      }
    }
    assert schema[..|schema|] == schema;
    return Ok((marshalled, cond));
  }

  lemma {:induction false} PutErrSticky(pre: Schema, full: Schema, record: seq<(string, JsValue)>, item: AttributeMap,
                                        condition: Option<Condition>)
    requires pre <= full
    requires PutFold(pre, record, item, condition).Err?
    ensures PutFold(full, record, item, condition) == Err(PutFold(pre, record, item, condition).error)
    decreases |full|
  {
    if |full| > |pre| {
      PutErrSticky(pre, full[..|full| - 1], record, item, condition);
    } else {
      assert pre == full;
    }
  }

  /** The attribute names of a schema's version fields. */
  predicate IsVersionName(schema: Schema, name: string)
  {
    exists i :: 0 <= i < |schema| && IsVersionAttribute(schema[i].1) && NameAt(schema, i) == name
  }

  /** No two version fields share an attribute name. */
  predicate VersionNamesDistinct(schema: Schema)
  {
    forall i, j :: 0 <= i < j < |schema| && IsVersionAttribute(schema[i].1) && IsVersionAttribute(schema[j].1)
      ==> NameAt(schema, i) != NameAt(schema, j)
  }

  /** One step of the `put` loop. */
  lemma PutFoldStep(schema: Schema, record: seq<(string, JsValue)>, item: AttributeMap, condition: Option<Condition>)
    requires |schema| > 0 && PutFold(schema, record, item, condition).Ok?
    ensures PutFold(schema[..|schema| - 1], record, item, condition).Ok?
    ensures var m0 := PutFold(schema[..|schema| - 1], record, item, condition).value.0;
      var name := NameAt(schema, |schema| - 1);
      PutFold(schema, record, item, condition).value.0
        == if IsVersionAttribute(schema[|schema| - 1].1) then Bump(m0, name) else m0
  {
  }

  /** `put` leaves every attribute that no version field is stored under as
      marshalled, and writes each version attribute one past the marshalled
      version, or `'0'` when the item has none. */
  lemma {:induction false} PutBumpsVersions(schema: Schema, record: seq<(string, JsValue)>, item: AttributeMap,
                                            condition: Option<Condition>)
    requires PutFold(schema, record, item, condition).Ok?
    requires VersionNamesDistinct(schema)
    ensures var m := PutFold(schema, record, item, condition).value.0;
      && (forall k :: !IsVersionName(schema, k) ==> Get(m, k) == Get(item, k))
      && (forall i :: 0 <= i < |schema| && IsVersionAttribute(schema[i].1) ==>
            Get(m, NameAt(schema, i)) == Some(BumpedValue(item, NameAt(schema, i))))
    decreases |schema|
  {
    if |schema| > 0 {
      var n := |schema| - 1;
      var pre := schema[..n];
      PutFoldStep(schema, record, item, condition);
      assert forall i :: 0 <= i < n ==> pre[i] == schema[i] && NameAt(pre, i) == NameAt(schema, i);
      assert VersionNamesDistinct(pre);
      PutBumpsVersions(pre, record, item, condition);
      var m0 := PutFold(pre, record, item, condition).value.0;
      var m := PutFold(schema, record, item, condition).value.0;
      var name := NameAt(schema, n);
      forall k | IsVersionName(pre, k)
        ensures IsVersionName(schema, k)
      {
        var i :| 0 <= i < n && IsVersionAttribute(pre[i].1) && NameAt(pre, i) == k;
        assert IsVersionAttribute(schema[i].1) && NameAt(schema, i) == k;
      }
      if IsVersionAttribute(schema[n].1) {
        forall k | k != name
          ensures Get(m, k) == Get(m0, k)
        {
          GetPut(m0, name, BumpedValue(m0, name), k);
        }
        GetPut(m0, name, BumpedValue(m0, name), name);
        forall i | 0 <= i < n && IsVersionAttribute(pre[i].1)
          ensures NameAt(pre, i) != name
        {
          assert NameAt(schema, i) != NameAt(schema, n);
        }
        assert !IsVersionName(pre, name);
        assert Get(m0, name) == Get(item, name);
        assert Get(m, name) == Some(BumpedValue(item, name));
      }
    }
  }

  /** The condition `put` sends holds on a stored record exactly when the
      caller's condition does and every version property of the record in
      hand matches the stored one. */
  lemma {:induction false} PutConditionMeaning(schema: Schema, record: seq<(string, JsValue)>, item: AttributeMap,
                                               condition: Option<Condition>, stored: seq<(string, JsValue)>)
    requires PutFold(schema, record, item, condition).Ok?
    ensures var c := PutFold(schema, record, item, condition).value.1;
      (c.None? || Holds(c.value, stored)) <==>
        && (condition.None? || Holds(condition.value, stored))
        && forall i :: 0 <= i < |schema| && IsVersionAttribute(schema[i].1) ==>
             Get(stored, schema[i].0) == Expected(Get(record, schema[i].0).GetOr(Undefined))
    decreases |schema|
  {
    if |schema| > 0 {
      var pre := schema[..|schema| - 1];
      var (key, field) := schema[|schema| - 1];
      assert forall i :: 0 <= i < |pre| ==> pre[i] == schema[i];
      PutConditionMeaning(pre, record, item, condition, stored);
      if IsVersionAttribute(field) {
        var c0 := PutFold(pre, record, item, condition).value.1;
        var member := Get(record, key).GetOr(Undefined);
        var u := HandleVersionAttribute(key, member).value;
        ConjoinHolds(c0, u.condition, stored);
        VersionCheck(key, member, stored);
      }
    }
  }

  // ---------------------------------------------------------------------------
  // update

  /** An action of the update expression `update` builds. */
  datatype UpdateAction =
    | SetVersion(key: string, version: VersionValue)
    | SetValue(key: string, value: AttributeValue)
    | Remove(key: string)

  /** What `update` derives from one schema field: key fields go to the key
      and never to the expression, a version field is always set, an undefined
      other field is removed only when missing fields are to be removed, and any
      other field is set to its marshalled value when that is defined. */
  function FieldAction(marshall: Marshaller, key: string, field: SchemaType, member: JsValue, removeMissing: bool)
    : (r: Result<Option<UpdateAction>>)
    ensures IsKey(field, None) ==> r == Ok(None)
    ensures !IsKey(field, None) && IsVersionAttribute(field) ==>
      (r.Ok? <==> HandleVersionAttribute(key, member).Ok?)
    ensures !IsKey(field, None) && IsVersionAttribute(field) && r.Ok? ==>
      r.value == Some(SetVersion(key, HandleVersionAttribute(key, member).value.value))
    ensures !IsKey(field, None) && !IsVersionAttribute(field) && member.Undefined? ==>
      r == if removeMissing then Ok(Some(Remove(key))) else Ok(None)
    ensures r.Ok? && r.value.Some? ==> r.value.value.key == key
  {
    if IsKey(field, None) then Ok(None)
    else if IsVersionAttribute(field) then
      match HandleVersionAttribute(key, member)
      case Err(e) => Err(e)
      case Ok(u) => Ok(Some(SetVersion(key, u.value)))
    else if member.Undefined? then
      if removeMissing then Ok(Some(Remove(key))) else Ok(None)
    else
      match marshall(field, member)
      case Err(e) => Err(e)
      case Ok(None) => Ok(None)
      case Ok(Some(a)) => Ok(Some(SetValue(key, a)))
  }

  /** The key, expression and condition `update` builds. */
  datatype UpdatePlan = UpdatePlan(itemKey: seq<(string, JsValue)>, actions: seq<UpdateAction>, condition: Option<Condition>)

  /** The loop of `update` over the schema. */
  function UpdateFold(marshall: Marshaller, schema: Schema, record: seq<(string, JsValue)>, removeMissing: bool,
                      skipVersionCheck: bool, condition: Option<Condition>): (r: Result<UpdatePlan>)
    decreases |schema|
  {
    if |schema| == 0 then Ok(UpdatePlan([], [], condition))
    else
      match UpdateFold(marshall, schema[..|schema| - 1], record, removeMissing, skipVersionCheck, condition)
      case Err(e) => Err(e)
      case Ok(plan) =>
        var (key, field) := schema[|schema| - 1];
        var member := Get(record, key).GetOr(Undefined);
        match FieldAction(marshall, key, field, member, removeMissing)
        case Err(e) => Err(e)
        case Ok(action) =>
          var itemKey := if IsKey(field, None) then Put(plan.itemKey, key, member) else plan.itemKey;
          var actions := if action.Some? then plan.actions + [action.value] else plan.actions;
          var cond := if !IsKey(field, None) && IsVersionAttribute(field) && !skipVersionCheck
                      then Some(Conjoin(plan.condition, HandleVersionAttribute(key, member).value.condition))
                      else plan.condition;
          Ok(UpdatePlan(itemKey, actions, cond))
  }

  /** `update(item, {condition, onMissing, skipVersionCheck})` up to the
      update expression it executes. */
  method PlanUpdate(marshall: Marshaller, schema: Schema, record: seq<(string, JsValue)>, removeMissing: bool,
                    skipVersionCheck: bool, condition: Option<Condition>) returns (r: Result<UpdatePlan>)
    ensures r == UpdateFold(marshall, schema, record, removeMissing, skipVersionCheck, condition)
  {
    var itemKey: seq<(string, JsValue)> := [];
    var actions: seq<UpdateAction> := [];
    var cond := condition;
    for i := 0 to |schema|
      invariant UpdateFold(marshall, schema[..i], record, removeMissing, skipVersionCheck, condition)
             == Ok(UpdatePlan(itemKey, actions, cond))
    {
      assert schema[..i + 1][..i] == schema[..i];
      var (key, fieldSchema) := schema[i];
      var inputMember := Get(record, key).GetOr(Undefined);
      if IsKey(fieldSchema, None) {
        itemKey := Put(itemKey, key, inputMember);
      } else if IsVersionAttribute(fieldSchema) {
        var handled := HandleVersionAttribute(key, inputMember);
        if handled.Err? {
          UpdateErrSticky(marshall, schema[..i + 1], schema, record, removeMissing, skipVersionCheck, condition);
          assert schema[..|schema|] == schema;
          return Err(handled.error);
        }
        actions := actions + [SetVersion(key, handled.value.value)];
        if !skipVersionCheck {
          cond := Some(Conjoin(cond, handled.value.condition));
        }
      } else if inputMember.Undefined? {
        if removeMissing {
          actions := actions + [Remove(key)];
        }
      } else {
        var marshalled := marshall(fieldSchema, inputMember);
        if marshalled.Err? {
          UpdateErrSticky(marshall, schema[..i + 1], schema, record, removeMissing, skipVersionCheck, condition);
          assert schema[..|schema|] == schema;
          return Err(marshalled.error);
        }
        if marshalled.value.Some? {
          actions := actions + [SetValue(key, marshalled.value.value)];
        }
      }
    }
    assert schema[..|schema|] == schema;
    return Ok(UpdatePlan(itemKey, actions, cond));
  }

  lemma {:induction false} UpdateErrSticky(marshall: Marshaller, pre: Schema, full: Schema, record: seq<(string, JsValue)>,
                                           removeMissing: bool, skipVersionCheck: bool, condition: Option<Condition>)
    requires pre <= full
    requires UpdateFold(marshall, pre, record, removeMissing, skipVersionCheck, condition).Err?
    ensures UpdateFold(marshall, full, record, removeMissing, skipVersionCheck, condition)
         == Err(UpdateFold(marshall, pre, record, removeMissing, skipVersionCheck, condition).error)
    decreases |full|
  {
    if |full| > |pre| {
      UpdateErrSticky(marshall, pre, full[..|full| - 1], record, removeMissing, skipVersionCheck, condition);
    } else {
      assert pre == full;
    }
  }

  /** The action of the field at position `i`. */
  function ActionAt(marshall: Marshaller, schema: Schema, record: seq<(string, JsValue)>, removeMissing: bool, i: int)
    : Result<Option<UpdateAction>>
    requires 0 <= i < |schema|
  {
    FieldAction(marshall, schema[i].0, schema[i].1, Get(record, schema[i].0).GetOr(Undefined), removeMissing)
  }

  /** One step of the `update` loop. */
  lemma UpdateFoldStep(marshall: Marshaller, schema: Schema, record: seq<(string, JsValue)>,
                       removeMissing: bool, skipVersionCheck: bool, condition: Option<Condition>)
    requires |schema| > 0
    requires UpdateFold(marshall, schema, record, removeMissing, skipVersionCheck, condition).Ok?
    ensures UpdateFold(marshall, schema[..|schema| - 1], record, removeMissing, skipVersionCheck, condition).Ok?
    ensures ActionAt(marshall, schema, record, removeMissing, |schema| - 1).Ok?
    ensures var plan0 := UpdateFold(marshall, schema[..|schema| - 1], record, removeMissing, skipVersionCheck, condition).value;
      var plan := UpdateFold(marshall, schema, record, removeMissing, skipVersionCheck, condition).value;
      var action := ActionAt(marshall, schema, record, removeMissing, |schema| - 1).value;
      var (key, field) := schema[|schema| - 1];
      && plan.actions == (if action.Some? then plan0.actions + [action.value] else plan0.actions)
      && plan.itemKey == (if IsKey(field, None) then Put(plan0.itemKey, key, Get(record, key).GetOr(Undefined)) else plan0.itemKey)
  {
  }

  /** The action of every field, in schema order. */
  function ActionResults(marshall: Marshaller, schema: Schema, record: seq<(string, JsValue)>, removeMissing: bool)
    : (rs: seq<Result<Option<UpdateAction>>>)
    ensures |rs| == |schema|
    ensures forall i :: 0 <= i < |schema| ==> rs[i] == ActionAt(marshall, schema, record, removeMissing, i)
  {
    seq(|schema|, i requires 0 <= i < |schema| => ActionAt(marshall, schema, record, removeMissing, i))
  }

  /** The loop of `update` gathers the defined actions of the fields, and
      fails with the first field's error. */
  lemma {:induction false} UpdateFoldGathers(marshall: Marshaller, schema: Schema, record: seq<(string, JsValue)>,
                                             removeMissing: bool, skipVersionCheck: bool, condition: Option<Condition>)
    ensures UpdateFold(marshall, schema, record, removeMissing, skipVersionCheck, condition).Ok?
        <==> Gather(ActionResults(marshall, schema, record, removeMissing)).Ok?
    ensures UpdateFold(marshall, schema, record, removeMissing, skipVersionCheck, condition).Ok? ==>
      Gather(ActionResults(marshall, schema, record, removeMissing)).value
        == UpdateFold(marshall, schema, record, removeMissing, skipVersionCheck, condition).value.actions
    decreases |schema|
  {
    if |schema| > 0 {
      var n := |schema| - 1;
      var pre := schema[..n];
      var rs := ActionResults(marshall, schema, record, removeMissing);
      UpdateFoldGathers(marshall, pre, record, removeMissing, skipVersionCheck, condition);
      forall i | 0 <= i < n
        ensures rs[..n][i] == ActionResults(marshall, pre, record, removeMissing)[i]
      {
        assert pre[i] == schema[i];
      }
      assert rs[..n] == ActionResults(marshall, pre, record, removeMissing);
      assert rs[n] == FieldAction(marshall, schema[n].0, schema[n].1, Get(record, schema[n].0).GetOr(Undefined), removeMissing);
    }
  }

  /** `update` succeeds exactly when every field's action does. */
  lemma UpdateActionsDefined(marshall: Marshaller, schema: Schema, record: seq<(string, JsValue)>,
                             removeMissing: bool, skipVersionCheck: bool, condition: Option<Condition>)
    ensures UpdateFold(marshall, schema, record, removeMissing, skipVersionCheck, condition).Ok? <==>
      forall i :: 0 <= i < |schema| ==> ActionAt(marshall, schema, record, removeMissing, i).Ok?
  {
    UpdateFoldGathers(marshall, schema, record, removeMissing, skipVersionCheck, condition);
    GatherAll(ActionResults(marshall, schema, record, removeMissing));
  }

  /** Every field's action is in the update expression. */
  lemma UpdateActionsComplete(marshall: Marshaller, schema: Schema, record: seq<(string, JsValue)>,
                              removeMissing: bool, skipVersionCheck: bool, condition: Option<Condition>)
    requires UpdateFold(marshall, schema, record, removeMissing, skipVersionCheck, condition).Ok?
    ensures var plan := UpdateFold(marshall, schema, record, removeMissing, skipVersionCheck, condition).value;
      forall i, a :: 0 <= i < |schema| && ActionAt(marshall, schema, record, removeMissing, i) == Ok(Some(a)) ==>
        a in plan.actions
  {
    var rs := ActionResults(marshall, schema, record, removeMissing);
    UpdateFoldGathers(marshall, schema, record, removeMissing, skipVersionCheck, condition);
    GatherMembers(rs);
  }

  /** Every action of the update expression comes from a schema field. */
  lemma UpdateActionsSound(marshall: Marshaller, schema: Schema, record: seq<(string, JsValue)>,
                           removeMissing: bool, skipVersionCheck: bool, condition: Option<Condition>)
    requires UpdateFold(marshall, schema, record, removeMissing, skipVersionCheck, condition).Ok?
    ensures var plan := UpdateFold(marshall, schema, record, removeMissing, skipVersionCheck, condition).value;
      forall a :: a in plan.actions ==>
        exists i :: 0 <= i < |schema| && ActionAt(marshall, schema, record, removeMissing, i) == Ok(Some(a))
  {
    var rs := ActionResults(marshall, schema, record, removeMissing);
    UpdateFoldGathers(marshall, schema, record, removeMissing, skipVersionCheck, condition);
    GatherMembers(rs);
  }

  /** The key `update` sends holds exactly the key fields' properties. */
  lemma {:induction false} UpdateKeyFields(marshall: Marshaller, schema: Schema, record: seq<(string, JsValue)>,
                                           removeMissing: bool, skipVersionCheck: bool, condition: Option<Condition>)
    requires UpdateFold(marshall, schema, record, removeMissing, skipVersionCheck, condition).Ok?
    ensures var plan := UpdateFold(marshall, schema, record, removeMissing, skipVersionCheck, condition).value;
      && (forall k :: k in Keys(plan.itemKey) ==> exists i :: 0 <= i < |schema| && schema[i].0 == k && IsKey(schema[i].1, None))
      && (forall i :: 0 <= i < |schema| && IsKey(schema[i].1, None) ==> schema[i].0 in Keys(plan.itemKey))
    decreases |schema|
  {
    if |schema| > 0 {
      var n := |schema| - 1;
      var pre := schema[..n];
      UpdateFoldStep(marshall, schema, record, removeMissing, skipVersionCheck, condition);
      UpdateKeyFields(marshall, pre, record, removeMissing, skipVersionCheck, condition);
      var plan0 := UpdateFold(marshall, pre, record, removeMissing, skipVersionCheck, condition).value;
      var plan := UpdateFold(marshall, schema, record, removeMissing, skipVersionCheck, condition).value;
      var (key, field) := schema[n];
      if IsKey(field, None) {
        KeysPut(plan0.itemKey, key, Get(record, key).GetOr(Undefined));
      }
      assert forall k :: k in Keys(plan.itemKey) <==> k in Keys(plan0.itemKey) || (IsKey(field, None) && k == key);
      forall i | 0 <= i < |schema| && IsKey(schema[i].1, None)
        ensures schema[i].0 in Keys(plan.itemKey)
      {
        if i < n {
          assert pre[i] == schema[i];
        }
      }
      forall k | k in Keys(plan.itemKey)
        ensures exists i :: 0 <= i < |schema| && schema[i].0 == k && IsKey(schema[i].1, None)
      {
        if k in Keys(plan0.itemKey) {
          var i :| 0 <= i < n && pre[i].0 == k && IsKey(pre[i].1, None);
          assert schema[i] == pre[i];
        } else {
          assert schema[n].0 == k && IsKey(schema[n].1, None);
        }
      }
    }
  }

  // ---------------------------------------------------------------------------
  // delete

  /** The loop of `delete` over the schema when the version check is not
      skipped: only version properties the record carries are checked. */
  function DeleteFold(schema: Schema, record: seq<(string, JsValue)>, condition: Option<Condition>)
    : (r: Result<Option<Condition>>)
    ensures r.Ok? && r.value.None? ==> condition.None?
    decreases |schema|
  {
    if |schema| == 0 then Ok(condition)
    else
      match DeleteFold(schema[..|schema| - 1], record, condition)
      case Err(e) => Err(e)
      case Ok(c) =>
        var (prop, field) := schema[|schema| - 1];
        var member := Get(record, prop).GetOr(Undefined);
        if IsVersionAttribute(field) && !member.Undefined? then
          match HandleVersionAttribute(prop, member)
          case Err(e) => Err(e)
          case Ok(u) => Ok(Some(Conjoin(c, u.condition)))
        else Ok(c)
  }

  /** The condition handling of `delete(item, {condition, skipVersionCheck})`. */
  method DeleteVersioning(schema: Schema, record: seq<(string, JsValue)>, condition: Option<Condition>,
                          skipVersionCheck: bool) returns (r: Result<Option<Condition>>)
    ensures skipVersionCheck ==> r == Ok(condition)
    ensures !skipVersionCheck ==> r == DeleteFold(schema, record, condition)
  {
    if skipVersionCheck {
      return Ok(condition);
    }
    var cond := condition;
    for i := 0 to |schema|
      invariant DeleteFold(schema[..i], record, condition) == Ok(cond)
    {
      assert schema[..i + 1][..i] == schema[..i];
      var (prop, fieldSchema) := schema[i];
      var inputMember := Get(record, prop).GetOr(Undefined);
      if IsVersionAttribute(fieldSchema) && !inputMember.Undefined? {
        var handled := HandleVersionAttribute(prop, inputMember);
        if handled.Err? {
          DeleteErrSticky(schema[..i + 1], schema, record, condition);
          assert schema[..|schema|] == schema;
          return Err(handled.error);
        }
        cond := Some(Conjoin(cond, handled.value.condition));
      }
    }
    assert schema[..|schema|] == schema;
    return Ok(cond);
  }

  lemma {:induction false} DeleteErrSticky(pre: Schema, full: Schema, record: seq<(string, JsValue)>,
                                           condition: Option<Condition>)
    requires pre <= full
    requires DeleteFold(pre, record, condition).Err?
    ensures DeleteFold(full, record, condition) == Err(DeleteFold(pre, record, condition).error)
    decreases |full|
  {
    if |full| > |pre| {
      DeleteErrSticky(pre, full[..|full| - 1], record, condition);
    } else {
      assert pre == full;
    }
  }

  /** Whether every version property the record carries matches the stored
      record's value under the same name. */
  predicate VersionsMatch(schema: Schema, record: seq<(string, JsValue)>, stored: seq<(string, JsValue)>)
  {
    forall i :: 0 <= i < |schema| && IsVersionAttribute(schema[i].1)
                && !Get(record, schema[i].0).GetOr(Undefined).Undefined? ==>
      Get(stored, schema[i].0) == Get(record, schema[i].0)
  }

  lemma VersionsMatchStep(schema: Schema, record: seq<(string, JsValue)>, stored: seq<(string, JsValue)>)
    requires |schema| > 0
    ensures var (prop, field) := schema[|schema| - 1];
      VersionsMatch(schema, record, stored) <==>
        && VersionsMatch(schema[..|schema| - 1], record, stored)
        && (IsVersionAttribute(field) && !Get(record, prop).GetOr(Undefined).Undefined? ==>
              Get(stored, prop) == Get(record, prop))
  {
    var pre := schema[..|schema| - 1];
    assert forall i :: 0 <= i < |pre| ==> pre[i] == schema[i];
  }

  lemma DeleteFoldStep(schema: Schema, record: seq<(string, JsValue)>, condition: Option<Condition>)
    requires |schema| > 0 && DeleteFold(schema, record, condition).Ok?
    ensures DeleteFold(schema[..|schema| - 1], record, condition).Ok?
    ensures var (prop, field) := schema[|schema| - 1];
      var member := Get(record, prop).GetOr(Undefined);
      var c0 := DeleteFold(schema[..|schema| - 1], record, condition).value;
      if IsVersionAttribute(field) && !member.Undefined? then
        && HandleVersionAttribute(prop, member).Ok?
        && DeleteFold(schema, record, condition).value == Some(Conjoin(c0, HandleVersionAttribute(prop, member).value.condition))
      else DeleteFold(schema, record, condition).value == c0
  {
  }

  /** The condition `delete` sends holds on a stored record exactly when the
      caller's condition does and every version the record in hand carries
      matches the stored one; a record without a version adds no check. */
  lemma {:induction false} DeleteConditionMeaning(schema: Schema, record: seq<(string, JsValue)>,
                                                  condition: Option<Condition>, stored: seq<(string, JsValue)>)
    requires DeleteFold(schema, record, condition).Ok?
    ensures var c := DeleteFold(schema, record, condition).value;
      (c.None? || Holds(c.value, stored)) <==>
        (condition.None? || Holds(condition.value, stored)) && VersionsMatch(schema, record, stored)
    decreases |schema|
  {
    if |schema| > 0 {
      var pre := schema[..|schema| - 1];
      var (prop, field) := schema[|schema| - 1];
      DeleteFoldStep(schema, record, condition);
      VersionsMatchStep(schema, record, stored);
      DeleteConditionMeaning(pre, record, condition, stored);
      var member := Get(record, prop).GetOr(Undefined);
      if IsVersionAttribute(field) && !member.Undefined? {
        var c0 := DeleteFold(pre, record, condition).value;
        var u := HandleVersionAttribute(prop, member).value;
        ConjoinHolds(c0, u.condition, stored);
        VersionCheck(prop, member, stored);
      }
    }
  }
}
