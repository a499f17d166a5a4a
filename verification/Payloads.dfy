/** Canonical task payloads (harness2/kernel/payloads.py). */
module Payloads {
  import opened Json
  import opened Text
  import opened Wrappers
  import Utf8

  const MAX_PAYLOAD_BYTES: nat := 10 * 1024 * 1024
  const MAX_OBJECTIVE_BYTES: nat := 1024 * 1024
  const MAX_DEPTH: nat := 32
  const MAX_KEY: nat := 256

  datatype Key = StrKey(s: string) | OtherKey(id: int)

  /** A Python value a caller may hand in; floats are not part of this model. */
  datatype Py =
    | PNone
    | PBool(b: bool)
    | PInt(n: int)
    | PStr(s: string)
    | PList(items: seq<Py>)
    | PTuple(items: seq<Py>)
    | PMapping(fields: map<Key, Py>)
    | POther

  predicate GoodKey(k: Key) {
    k.StrKey? && 0 < |k.s| <= MAX_KEY
  }

  function NamesOf(keys: set<Key>): (names: set<string>)
    ensures forall s :: s in names <==> StrKey(s) in keys
  {
    set k | k in keys && k.StrKey? :: k.s
  }

  /** `_validate_json`: a plain JSON copy of the value, or None for PayloadError. */
  function ValidateJson(v: Py, depth: nat): Option<Json>
    decreases v
  {
    if depth > MAX_DEPTH then None
    else
      match v
      case PNone => Some(Null)
      case PBool(b) => Some(Bool(b))
      case PInt(n) => Some(Int(n))
      case PStr(s) => Some(Str(s))
      case POther => None
      case PMapping(fields) =>
        if (forall k :: k in fields ==> GoodKey(k))
          && (forall k :: k in fields ==> ValidateJson(fields[k], depth + 1).Some?)
        then Some(Obj(map s | s in NamesOf(fields.Keys) :: ValidateJson(fields[StrKey(s)], depth + 1).value))
        else None
      case _ =>
        if forall i :: 0 <= i < |v.items| ==> ValidateJson(v.items[i], depth + 1).Some?
        then Some(Arr(seq(|v.items|, i requires 0 <= i < |v.items| =>
               ValidateJson(v.items[i], depth + 1).value)))
        else None
  }

  function KeysOf(fields: map<string, Json>): (keys: set<Key>)
    ensures forall k :: k in keys ==> k.StrKey? && k.s in fields
    ensures forall s :: s in fields ==> StrKey(s) in keys
  {
    set s | s in fields :: StrKey(s)
  }

  /** A JSON value as the Python value `json.loads` makes of it. */
  function Lift(v: Json): Py {
    match v
    case Null => PNone
    case Bool(b) => PBool(b)
    case Int(n) => PInt(n)
    case Str(s) => PStr(s)
    case Arr(items) => PList(seq(|items|, i requires 0 <= i < |items| => Lift(items[i])))
    case Obj(fields) => PMapping(map k | k in KeysOf(fields) :: Lift(fields[k.s]))
  }

  // ----- nesting

  predicate GoodKeys(v: Json) {
    match v
    case Arr(items) => forall i :: 0 <= i < |items| ==> GoodKeys(items[i])
    case Obj(fields) => forall k :: k in fields ==> 0 < |k| <= MAX_KEY && GoodKeys(fields[k])
    case _ => true
  }

  function Max(a: nat, b: nat): nat {
    if a < b then b else a
  }

  /** The number of containers around the innermost contained value. */
  function Nesting(v: Json): nat
    decreases v, 1, 0
  {
    match v
    case Arr(items) => NestingOfItems(items)
    case Obj(_) => NestingOfFields(v, Sorted(v.fields.Keys))
    case _ => 0
  }

  function NestingOfItems(items: seq<Json>): nat
    decreases items, 0, 0
  {
    if items == [] then 0 else Max(1 + Nesting(items[0]), NestingOfItems(items[1..]))
  }

  function NestingOfFields(v: Json, keys: seq<string>): nat
    requires v.Obj? && forall k :: k in keys ==> k in v.fields
    decreases v, 0, |keys|
  {
    if keys == [] then 0 else Max(1 + Nesting(v.fields[keys[0]]), NestingOfFields(v, keys[1..]))
  }

  lemma {:induction false} ItemsNesting(items: seq<Json>, n: nat)
    ensures NestingOfItems(items) <= n <==>
      forall i :: 0 <= i < |items| ==> Nesting(items[i]) < n
  {
    if items != [] {
      ItemsNesting(items[1..], n);
      assert forall i :: 1 <= i < |items| ==> items[i] == items[1..][i - 1];
    }
  }

  lemma {:induction false} FieldsNesting(v: Json, keys: seq<string>, n: nat)
    requires v.Obj? && forall k :: k in keys ==> k in v.fields
    ensures NestingOfFields(v, keys) <= n <==> forall k :: k in keys ==> Nesting(v.fields[k]) < n
    decreases |keys|
  {
    if keys != [] {
      FieldsNesting(v, keys[1..], n);
      assert forall k :: k in keys <==> k == keys[0] || k in keys[1..];
    }
  }

  lemma ObjNesting(v: Json, n: nat)
    requires v.Obj?
    ensures Nesting(v) <= n <==> forall k :: k in v.fields ==> Nesting(v.fields[k]) < n
  {
    FieldsNesting(v, Sorted(v.fields.Keys), n);
  }

  /** A value that may stand at this depth: bounded keys, and no nesting past the limit. */
  predicate Fits(v: Json, depth: nat) {
    GoodKeys(v) && depth + Nesting(v) <= MAX_DEPTH
  }

  lemma FitsArr(v: Json, depth: nat)
    requires v.Arr? && depth <= MAX_DEPTH
    ensures Fits(v, depth) <==> forall i :: 0 <= i < |v.items| ==> Fits(v.items[i], depth + 1)
  {
    ItemsNesting(v.items, MAX_DEPTH - depth);
  }

  lemma FitsObj(v: Json, depth: nat)
    requires v.Obj? && depth <= MAX_DEPTH
    ensures Fits(v, depth) <==> forall k :: k in v.fields ==> 0 < |k| <= MAX_KEY && Fits(v.fields[k], depth + 1)
  {
    ObjNesting(v, MAX_DEPTH - depth);
  }

  function Accepted(v: Json, depth: nat): Option<Json> {
    if Fits(v, depth) then Some(v) else None
  }

  lemma ValidList(items: seq<Py>, copies: seq<Json>, depth: nat)
    requires depth <= MAX_DEPTH && |items| == |copies|
    requires forall i :: 0 <= i < |items| ==> ValidateJson(items[i], depth + 1) == Accepted(copies[i], depth + 1)
    ensures ValidateJson(PList(items), depth) == Accepted(Arr(copies), depth)
  {
    FitsArr(Arr(copies), depth);
    if Fits(Arr(copies), depth) {
      assert ValidateJson(PList(items), depth).value.items == copies;
    }
  }

  lemma ValidMapping(fields: map<Key, Py>, copies: map<string, Json>, depth: nat)
    requires depth <= MAX_DEPTH && fields.Keys == KeysOf(copies)
    requires forall s :: s in copies ==>
      ValidateJson(fields[StrKey(s)], depth + 1) == Accepted(copies[s], depth + 1)
    ensures ValidateJson(PMapping(fields), depth) == Accepted(Obj(copies), depth)
  {
    hide Fits;
    FitsObj(Obj(copies), depth);
    forall k | k in fields
      ensures k.StrKey? && k.s in copies && ValidateJson(fields[k], depth + 1) == Accepted(copies[k.s], depth + 1)
    {
      assert k == StrKey(k.s);
    }
    if Fits(Obj(copies), depth) {
      assert ValidateJson(PMapping(fields), depth).Some?;
      assert ValidateJson(PMapping(fields), depth).value.fields == copies;
    } else {
      var s :| s in copies && !(0 < |s| <= MAX_KEY && Fits(copies[s], depth + 1));
      assert StrKey(s) in fields;
    }
  }

  /** Validation keeps a JSON value, and accepts it exactly when keys and nesting are in bounds. */
  lemma {:induction false} ValidateLift(v: Json, depth: nat)
    ensures ValidateJson(Lift(v), depth) == Accepted(v, depth)
    decreases v
  {
    if depth > MAX_DEPTH || !(v.Arr? || v.Obj?) {
      LeafLift(v, depth);
    } else if v.Arr? {
      hide ValidateJson, Fits;
      forall i | 0 <= i < |v.items|
        ensures ValidateJson(Lift(v.items[i]), depth + 1) == Accepted(v.items[i], depth + 1)
      {
        ValidateLift(v.items[i], depth + 1);
      }
      ValidList(Lift(v).items, v.items, depth);
    } else {
      hide ValidateJson, Fits;
      forall s | s in v.fields
        ensures ValidateJson(Lift(v.fields[s]), depth + 1) == Accepted(v.fields[s], depth + 1)
      {
        ValidateLift(v.fields[s], depth + 1);
      }
      LiftedFields(v);
      ValidMapping(Lift(v).fields, v.fields, depth);
    }
  }

  lemma LeafLift(v: Json, depth: nat)
    requires depth > MAX_DEPTH || !(v.Arr? || v.Obj?)
    ensures ValidateJson(Lift(v), depth) == Accepted(v, depth)
  {
  }

  lemma LiftedFields(v: Json)
    requires v.Obj?
    ensures Lift(v).PMapping? && Lift(v).fields.Keys == KeysOf(v.fields)
    ensures forall s :: s in v.fields ==> StrKey(s) in Lift(v).fields && Lift(v).fields[StrKey(s)] == Lift(v.fields[s])
  {
  }

  /** The JSON value says what the Python value says: lists and tuples as arrays, mappings with string keys as objects. */
  ghost predicate Means(v: Py, j: Json)
    decreases v
  {
    match v
    case PNone => j == Null
    case PBool(b) => j == Bool(b)
    case PInt(n) => j == Int(n)
    case PStr(s) => j == Str(s)
    case POther => false
    case PMapping(fields) =>
      j.Obj? && fields.Keys == KeysOf(j.fields) && forall s :: s in j.fields ==> Means(fields[StrKey(s)], j.fields[s])
    case _ => j.Arr? && |j.items| == |v.items| && forall i :: 0 <= i < |v.items| ==> Means(v.items[i], j.items[i])
  }

  /** Validation answers with the JSON value that says the same, and refuses every Python value without one that fits. */
  lemma {:induction false} ValidateExact(v: Py, depth: nat)
    ensures forall j :: ValidateJson(v, depth) == Some(j) <==> Means(v, j) && Fits(j, depth)
    decreases v
  {
    if depth > MAX_DEPTH {
    } else if v.PMapping? {
      forall k | k in v.fields
        ensures forall j :: ValidateJson(v.fields[k], depth + 1) == Some(j) <==> Means(v.fields[k], j) && Fits(j, depth + 1)
      {
        ValidateExact(v.fields[k], depth + 1);
      }
      forall j: Json
        ensures ValidateJson(v, depth) == Some(j) <==> Means(v, j) && Fits(j, depth)
      {
        MappingExact(v, j, depth);
      }
    } else if v.PList? || v.PTuple? {
      forall i | 0 <= i < |v.items|
        ensures forall j :: ValidateJson(v.items[i], depth + 1) == Some(j) <==> Means(v.items[i], j) && Fits(j, depth + 1)
      {
        ValidateExact(v.items[i], depth + 1);
      }
      forall j: Json
        ensures ValidateJson(v, depth) == Some(j) <==> Means(v, j) && Fits(j, depth)
      {
        ListExact(v, j, depth);
      }
    }
  }

  lemma MappingExact(v: Py, j: Json, depth: nat)
    requires v.PMapping? && depth <= MAX_DEPTH
    requires forall k :: k in v.fields ==>
      forall part :: ValidateJson(v.fields[k], depth + 1) == Some(part) <==> Means(v.fields[k], part) && Fits(part, depth + 1)
    ensures ValidateJson(v, depth) == Some(j) <==> Means(v, j) && Fits(j, depth)
  {
    hide Fits;
    if j.Obj? {
      FitsObj(j, depth);
      if Means(v, j) && Fits(j, depth) {
        MappingCopied(v, j, depth);
      }
      if ValidateJson(v, depth) == Some(j) {
        assert forall k :: k in v.fields ==> k.StrKey? && k == StrKey(k.s);
        assert v.fields.Keys == KeysOf(j.fields);
      }
    }
  }

  lemma MappingCopied(v: Py, j: Json, depth: nat)
    requires v.PMapping? && j.Obj? && depth <= MAX_DEPTH && v.fields.Keys == KeysOf(j.fields)
    requires forall s :: s in j.fields ==> 0 < |s| <= MAX_KEY && ValidateJson(v.fields[StrKey(s)], depth + 1) == Some(j.fields[s])
    ensures ValidateJson(v, depth) == Some(j)
  {
    forall k | k in v.fields
      ensures k.StrKey? && k.s in j.fields && GoodKey(k) && ValidateJson(v.fields[k], depth + 1) == Some(j.fields[k.s])
    {
      assert k == StrKey(k.s);
    }
    assert ValidateJson(v, depth).value.fields == j.fields;
  }

  lemma ListExact(v: Py, j: Json, depth: nat)
    requires (v.PList? || v.PTuple?) && depth <= MAX_DEPTH
    requires forall i :: 0 <= i < |v.items| ==>
      forall part :: ValidateJson(v.items[i], depth + 1) == Some(part) <==> Means(v.items[i], part) && Fits(part, depth + 1)
    ensures ValidateJson(v, depth) == Some(j) <==> Means(v, j) && Fits(j, depth)
  {
    hide Fits;
    if j.Arr? {
      FitsArr(j, depth);
      if Means(v, j) && Fits(j, depth) {
        forall i | 0 <= i < |v.items|
          ensures ValidateJson(v.items[i], depth + 1) == Some(j.items[i])
        {
          assert Means(v.items[i], j.items[i]) && Fits(j.items[i], depth + 1);
        }
        assert ValidateJson(v, depth).value.items == j.items;
      }
    }
  }

  // ----- deep immutable copies

  datatype Frozen =
    | FNone
    | FBool(b: bool)
    | FInt(n: int)
    | FStr(s: string)
    | FTuple(items: seq<Frozen>)
    | FProxy(fields: map<string, Frozen>)

  function Freeze(v: Json): Frozen {
    match v
    case Null => FNone
    case Bool(b) => FBool(b)
    case Int(n) => FInt(n)
    case Str(s) => FStr(s)
    case Arr(items) => FTuple(seq(|items|, i requires 0 <= i < |items| => Freeze(items[i])))
    case Obj(fields) => FProxy(map k | k in fields :: Freeze(fields[k]))
  }

  function Thaw(v: Frozen): Json {
    match v
    case FNone => Null
    case FBool(b) => Bool(b)
    case FInt(n) => Int(n)
    case FStr(s) => Str(s)
    case FTuple(items) => Arr(seq(|items|, i requires 0 <= i < |items| => Thaw(items[i])))
    case FProxy(fields) => Obj(map k | k in fields :: Thaw(fields[k]))
  }

  lemma {:induction false} ThawFreeze(v: Json)
    ensures Thaw(Freeze(v)) == v
  {
    match v {
      case Arr(items) =>
        forall i | 0 <= i < |items| ensures Thaw(Freeze(items[i])) == items[i] { ThawFreeze(items[i]); }
        assert Thaw(Freeze(v)).items == items;
      case Obj(fields) =>
        forall k | k in fields ensures Thaw(Freeze(fields[k])) == fields[k] { ThawFreeze(fields[k]); }
        assert Thaw(Freeze(v)).fields == fields;
      case _ =>
    }
  }

  lemma {:induction false} FreezeThaw(v: Frozen)
    ensures Freeze(Thaw(v)) == v
  {
    match v {
      case FTuple(items) =>
        forall i | 0 <= i < |items| ensures Freeze(Thaw(items[i])) == items[i] { FreezeThaw(items[i]); }
        assert Freeze(Thaw(v)).items == items;
      case FProxy(fields) =>
        forall k | k in fields ensures Freeze(Thaw(fields[k])) == fields[k] { FreezeThaw(fields[k]); }
        assert Freeze(Thaw(v)).fields == fields;
      case _ =>
    }
  }

  // ----- task payloads

  const SCHEMA: string := "harness.task-payload/1"

  datatype TaskPayload = TaskPayload(
    taskType: string, objective: string, inputs: Frozen, constraints: Frozen, budget: Frozen)

  predicate IsIdStart(c: char) {
    'a' <= c <= 'z' || 'A' <= c <= 'Z' || '0' <= c <= '9'
  }

  predicate IsIdentifier(s: string) {
    0 < |s| <= 128 && IsIdStart(s[0])
    && forall i :: 0 < i < |s| ==> IsIdStart(s[i]) || s[i] in "._:/-"
  }

  predicate IsObjective(s: string) {
    Strip(s) != "" && |Utf8.Encode(s)| <= MAX_OBJECTIVE_BYTES
  }

  function FrozenCopy(v: Py): Option<Frozen> {
    if !v.PMapping? then None
    else
      match ValidateJson(v, 0)
      case None => None
      case Some(copy) => Some(Freeze(copy))
  }

  /** The constructor; None stands for PayloadError. */
  function MakePayload(taskType: string, objective: string, inputs: Py, constraints: Py, budget: Py,
                       schemaVersion: int): Option<TaskPayload>
  {
    var i, c, b := FrozenCopy(inputs), FrozenCopy(constraints), FrozenCopy(budget);
    if IsIdentifier(taskType) && schemaVersion == 1 && IsObjective(objective) && i.Some? && c.Some? && b.Some?
    then Some(TaskPayload(taskType, objective, i.value, c.value, b.value))
    else None
  }

  function AsDict(p: TaskPayload): Json {
    Obj(map[
      "schema" := Str(SCHEMA), "task_type" := Str(p.taskType), "objective" := Str(p.objective),
      "inputs" := Thaw(p.inputs), "constraints" := Thaw(p.constraints), "budget" := Thaw(p.budget)])
  }

  function CanonicalBytes(v: Py, maxBytes: nat): Option<seq<Utf8.Byte>> {
    if !v.PMapping? then None
    else
      match ValidateJson(v, 0)
      case None => None
      case Some(normal) =>
        var encoded := Utf8.Encode(Dumps(normal));
        if |encoded| > maxBytes then None else Some(encoded)
  }

  function Canonical(p: TaskPayload): Option<seq<Utf8.Byte>> {
    CanonicalBytes(Lift(AsDict(p)), MAX_PAYLOAD_BYTES)
  }

  /**
   `TaskPayload.from_bytes`. A field of the wrong JSON type is refused at once: Python
   converts it with str() or dict() first, and then refuses because the canonical form of
   the result differs (CanonicalFieldTypes).
   */
  function FromBytes(bytes: seq<Utf8.Byte>): Option<TaskPayload> {
    match Utf8.Decode(bytes)
    case None => None
    case Some(text) =>
      match Loads(text)
      case Malformed => None
      case Loaded(raw) =>
        if !raw.Obj? || raw.fields.Keys != {"schema", "task_type", "objective", "inputs", "constraints", "budget"}
          || raw.fields["schema"] != Str(SCHEMA)
          || !raw.fields["task_type"].Str? || !raw.fields["objective"].Str?
        then None
        else
          var p := MakePayload(
            raw.fields["task_type"].s, raw.fields["objective"].s,
            Lift(raw.fields["inputs"]), Lift(raw.fields["constraints"]), Lift(raw.fields["budget"]), 1);
          if p.Some? && Canonical(p.value) == Some(bytes) then p else None
  }

  /** A frozen mapping whose keys are bounded and which nests at most as deep as a payload may. */
  predicate IsPart(v: Frozen) {
    v.FProxy? && Fits(Thaw(v), 0)
  }

  /** What the constructor guarantees. */
  predicate IsPayload(p: TaskPayload) {
    IsIdentifier(p.taskType) && IsObjective(p.objective) && IsPart(p.inputs) && IsPart(p.constraints) && IsPart(p.budget)
  }

  /** Whatever Python value is accepted, its copy is within the bounds. */
  lemma {:induction false} ValidatedFits(v: Py, depth: nat)
    requires ValidateJson(v, depth).Some?
    ensures Fits(ValidateJson(v, depth).value, depth)
    decreases v
  {
    var copy := ValidateJson(v, depth).value;
    if v.PMapping? {
      forall s | s in copy.fields
        ensures 0 < |s| <= MAX_KEY && Fits(copy.fields[s], depth + 1)
      {
        assert StrKey(s) in v.fields && GoodKey(StrKey(s));
        ValidatedFits(v.fields[StrKey(s)], depth + 1);
      }
      FitsObj(copy, depth);
    } else if v.PList? || v.PTuple? {
      forall i | 0 <= i < |v.items|
        ensures Fits(copy.items[i], depth + 1)
      {
        ValidatedFits(v.items[i], depth + 1);
      }
      FitsArr(copy, depth);
    }
  }

  lemma CopyIsPart(v: Py)
    requires FrozenCopy(v).Some?
    ensures IsPart(FrozenCopy(v).value)
  {
    ValidatedFits(v, 0);
    ThawFreeze(ValidateJson(v, 0).value);
  }

  lemma ConstructedIsPayload(taskType: string, objective: string, inputs: Py, constraints: Py, budget: Py, v: int)
    ensures var p := MakePayload(taskType, objective, inputs, constraints, budget, v);
      p.Some? ==>
        && IsPayload(p.value) && p.value.taskType == taskType && p.value.objective == objective
        && Some(Thaw(p.value.inputs)) == ValidateJson(inputs, 0) && Some(Thaw(p.value.constraints)) == ValidateJson(constraints, 0)
        && Some(Thaw(p.value.budget)) == ValidateJson(budget, 0)
  {
    hide ValidateJson, Fits, Freeze, Thaw, IsPart;
    var p := MakePayload(taskType, objective, inputs, constraints, budget, v);
    if p.Some? {
      CopyIsPart(inputs);
      CopyIsPart(constraints);
      CopyIsPart(budget);
      ThawFreeze(ValidateJson(inputs, 0).value);
      ThawFreeze(ValidateJson(constraints, 0).value);
      ThawFreeze(ValidateJson(budget, 0).value);
    }
  }

  /** What the constructor asks for: a short name, an objective of at most a mebibyte, version 1, and three mappings it can copy. */
  lemma ConstructorExact(taskType: string, objective: string, inputs: Py, constraints: Py, budget: Py, v: int)
    ensures MakePayload(taskType, objective, inputs, constraints, budget, v).Some? <==>
      && 1 <= |taskType| <= 128 && taskType[0] !in "._:/-" && (forall i :: 0 <= i < |taskType| ==> IsNameChar(taskType[i]))
      && Strip(objective) != "" && |Utf8.Encode(objective)| <= 1048576 && v == 1
      && (forall part :: part in [inputs, constraints, budget] ==> part.PMapping? && ValidateJson(part, 0).Some?)
  {
    hide ValidateJson, Freeze, Strip, Utf8.Encode, IsIdentifier, IsNameChar, FrozenCopy;
    NameExact(taskType);
    PartExact(inputs);
    PartExact(constraints);
    PartExact(budget);
    var parts := [inputs, constraints, budget];
    assert parts[0] == inputs && parts[1] == constraints && parts[2] == budget;
  }

  lemma PartExact(part: Py)
    ensures FrozenCopy(part).Some? <==> part.PMapping? && ValidateJson(part, 0).Some?
  {
    hide ValidateJson, Freeze;
  }

  lemma NameExact(s: string)
    ensures IsIdentifier(s) <==> 1 <= |s| <= 128 && s[0] !in "._:/-" && forall i :: 0 <= i < |s| ==> IsNameChar(s[i])
  {
    var marks := "._:/-";
    assert marks == ['.', '_', ':', '/', '-'];
    assert forall c :: c in marks <==> c == '.' || c == '_' || c == ':' || c == '/' || c == '-';
    if s != "" {
      assert IsIdStart(s[0]) <==> IsNameChar(s[0]) && s[0] !in marks;
    }
  }

  predicate IsNameChar(c: char) {
    'a' <= c <= 'z' || 'A' <= c <= 'Z' || '0' <= c <= '9' || c in "._:/-"
  }

  /** Keys have 1 to 256 characters, at every depth. */
  lemma KeyLimits(fields: map<string, Json>)
    ensures GoodKeys(Obj(fields)) <==> forall k :: k in fields ==> 1 <= |k| <= 256 && GoodKeys(fields[k])
  {
  }

  /** And every such payload can be constructed, from plain copies of its parts. */
  lemma PayloadIsConstructed(p: TaskPayload)
    requires IsPayload(p)
    ensures MakePayload(p.taskType, p.objective, Lift(Thaw(p.inputs)), Lift(Thaw(p.constraints)), Lift(Thaw(p.budget)), 1) == Some(p)
  {
    hide ValidateJson, Fits, Freeze, Thaw;
    RebuildPart(p.inputs);
    RebuildPart(p.constraints);
    RebuildPart(p.budget);
  }

  lemma CanonicalText(p: TaskPayload)
    ensures Canonical(p) ==
      if Fits(AsDict(p), 0) && |Utf8.Encode(Dumps(AsDict(p)))| <= MAX_PAYLOAD_BYTES
      then Some(Utf8.Encode(Dumps(AsDict(p)))) else None
  {
    ValidateLift(AsDict(p), 0);
  }

  lemma DictFields(p: TaskPayload)
    ensures var f := AsDict(p).fields;
      && f.Keys == {"schema", "task_type", "objective", "inputs", "constraints", "budget"}
      && f["schema"] == Str(SCHEMA) && f["task_type"] == Str(p.taskType) && f["objective"] == Str(p.objective)
      && f["inputs"] == Thaw(p.inputs) && f["constraints"] == Thaw(p.constraints) && f["budget"] == Thaw(p.budget)
  {
  }

  lemma ScalarFits(s: string)
    ensures Fits(Str(s), 1)
  {
  }

  lemma PartsFit(p: TaskPayload)
    ensures Fits(AsDict(p), 0) <==>
      Fits(Thaw(p.inputs), 1) && Fits(Thaw(p.constraints), 1) && Fits(Thaw(p.budget), 1)
  {
    var v := AsDict(p);
    DictFields(p);
    FitsObj(v, 0);
    SixFit(v.fields);
    ScalarFits(SCHEMA);
    ScalarFits(p.taskType);
    ScalarFits(p.objective);
  }

  lemma SixFit(f: map<string, Json>)
    requires f.Keys == {"schema", "task_type", "objective", "inputs", "constraints", "budget"}
    ensures (forall k :: k in f ==> 0 < |k| <= MAX_KEY && Fits(f[k], 1)) <==>
      Fits(f["schema"], 1) && Fits(f["task_type"], 1) && Fits(f["objective"], 1)
      && Fits(f["inputs"], 1) && Fits(f["constraints"], 1) && Fits(f["budget"], 1)
  {
    hide Fits;
    forall k | k in f.Keys
      ensures 0 < |k| <= MAX_KEY
      ensures k in {"schema", "task_type", "objective", "inputs", "constraints", "budget"}
    {
    }
  }

  lemma RebuildPart(v: Frozen)
    requires IsPart(v)
    ensures FrozenCopy(Lift(Thaw(v))) == Some(v)
  {
    ValidateLift(Thaw(v), 0);
    FreezeThaw(v);
  }

  /** Decoding the canonical bytes of a payload gives back that payload. */
  lemma FromCanonical(p: TaskPayload)
    requires IsPayload(p) && Canonical(p).Some?
    ensures FromBytes(Canonical(p).value) == Some(p)
  {
    hide Canonical, Fits, Loads, Dumps, Utf8.Decode, Utf8.Encode, Thaw, FrozenCopy;
    CanonicalText(p);
    PartsFit(p);
    Utf8.DecodeEncode(Dumps(AsDict(p)));
    LoadsDumps(AsDict(p));
    DictFields(p);
    RebuildPart(p.inputs);
    RebuildPart(p.constraints);
    RebuildPart(p.budget);
  }

  /** Only canonical bytes are accepted, and equal bytes mean equal payloads. */
  lemma CanonicalInjective(p: TaskPayload, q: TaskPayload)
    requires IsPayload(p) && IsPayload(q)
    requires Canonical(p).Some? && Canonical(p) == Canonical(q)
    ensures p == q
  {
    FromCanonical(p);
    FromCanonical(q);
  }

  lemma AcceptedIsCanonical(bytes: seq<Utf8.Byte>)
    requires FromBytes(bytes).Some?
    ensures IsPayload(FromBytes(bytes).value) && Canonical(FromBytes(bytes).value) == Some(bytes)
  {
    var p := FromBytes(bytes).value;
    var raw := Loads(Utf8.Decode(bytes).value).value;
    ConstructedIsPayload(p.taskType, p.objective, Lift(raw.fields["inputs"]),
                         Lift(raw.fields["constraints"]), Lift(raw.fields["budget"]), 1);
  }

  /** The bytes of every payload hold its text fields as JSON strings and its maps as JSON objects. */
  lemma CanonicalFieldTypes(p: TaskPayload, text: string, raw: Json)
    requires IsPayload(p) && Canonical(p) == Some(Utf8.Encode(text)) && Loads(text) == Loaded(raw)
    ensures raw.Obj? && "task_type" in raw.fields && "objective" in raw.fields && "inputs" in raw.fields
      && "constraints" in raw.fields && "budget" in raw.fields
    ensures raw.fields["task_type"].Str? && raw.fields["objective"].Str?
    ensures raw.fields["inputs"].Obj? && raw.fields["constraints"].Obj? && raw.fields["budget"].Obj?
    ensures raw == Obj(map[
      "schema" := Str("harness.task-payload/1"), "task_type" := Str(p.taskType), "objective" := Str(p.objective),
      "inputs" := Thaw(p.inputs), "constraints" := Thaw(p.constraints), "budget" := Thaw(p.budget)])
  {
    hide Canonical, Fits, Loads, Dumps, Utf8.Decode, Utf8.Encode;
    CanonicalText(p);
    Utf8.DecodeEncode(text);
    Utf8.DecodeEncode(Dumps(AsDict(p)));
    LoadsDumps(AsDict(p));
    DictFields(p);
  }

  /**
   When a constructed payload has canonical bytes: its maps nest at most 31 deep, one less
   than the constructor admits, and the text is within the size limit.
   */
  lemma CanonicalExists(p: TaskPayload)
    requires IsPayload(p)
    ensures Canonical(p).Some? <==>
      && Nesting(Thaw(p.inputs)) < 32
      && Nesting(Thaw(p.constraints)) < 32
      && Nesting(Thaw(p.budget)) < 32
      && |Utf8.Encode(Dumps(AsDict(p)))| <= 10 * 1024 * 1024
  {
    CanonicalText(p);
    PartsFit(p);
  }

  function Tower(n: nat): Json {
    if n == 0 then Null else Arr([Tower(n - 1)])
  }

  lemma OneMore(v: Json)
    ensures Nesting(Arr([v])) == 1 + Nesting(v) && (GoodKeys(Arr([v])) <==> GoodKeys(v))
  {
    assert [v][1..] == [] && [v][0] == v;
    assert NestingOfItems([v]) == Max(1 + Nesting(v), NestingOfItems([]));
  }

  lemma {:induction false} TowerNesting(n: nat)
    ensures Nesting(Tower(n)) == n && GoodKeys(Tower(n))
  {
    if n > 0 {
      TowerNesting(n - 1);
      OneMore(Tower(n - 1));
    }
  }

  function DeepInputs(): Json {
    Obj(map["a" := Tower(31)])
  }

  lemma DeepInputsFit()
    ensures Fits(DeepInputs(), 0) && !Fits(DeepInputs(), 1)
  {
    TowerNesting(31);
    FitsObj(DeepInputs(), 0);
    FitsObj(DeepInputs(), 1);
    assert "a" in DeepInputs().fields && DeepInputs().fields["a"] == Tower(31);
  }

  lemma CopyOf(v: Json)
    requires v.Obj? && Fits(v, 0)
    ensures FrozenCopy(Lift(v)) == Some(Freeze(v))
  {
    ValidateLift(v, 0);
  }

  lemma EmptyFits()
    ensures Fits(Obj(map[]), 0)
  {
    FitsObj(Obj(map[]), 0);
  }

  lemma LegacyType()
    ensures IsIdentifier("legacy.run/v1")
  {
  }

  /** Inputs that nest 32 deep construct, yet the payload has no canonical bytes. */
  lemma DeepestInputsRefused(objective: string)
    requires IsObjective(objective)
    ensures var empty := Lift(Obj(map[]));
      var p := MakePayload("legacy.run/v1", objective, Lift(DeepInputs()), empty, empty, 1);
      p.Some? && Canonical(p.value) == None
  {
    var empty := Obj(map[]);
    DeepInputsFit();
    EmptyFits();
    CopyOf(DeepInputs());
    CopyOf(empty);
    LegacyType();
    var p := TaskPayload("legacy.run/v1", objective, Freeze(DeepInputs()), Freeze(empty), Freeze(empty));
    ThawFreeze(DeepInputs());
    PartsFit(p);
    CanonicalText(p);
  }
}
