/**
 The canonical input identity of a task request (crates/vibemux_a2a/src/task_runtime.rs):
 JSON payloads are compared after integral numbers are respelled as integers and
 object keys are sorted.
 */
module Canonical {
  import opened Text

  /** A JSON number as the JSON library stores it. A float is its exact value; only negative
      zero needs a case of its own. */
  datatype Number =
    | PosInt(n: nat)
    | NegInt(i: int)
    | Float(value: real)
    | NegativeZero

  datatype Json =
    | Null
    | Bool(b: bool)
    | Num(number: Number)
    | Str(text: string)
    | Arr(items: Items)
    | Obj(fields: Fields)

  datatype Items = NoItems | Item(head: Json, tail: Items)

  /** Object members in insertion order. */
  datatype Fields = NoFields | Field(key: string, value: Json, rest: Fields)

  datatype Outcome<+T> = Accepted(value: T) | Refused

  const MAX_EXACT_INTEGER: int := 9_007_199_254_740_991
  const MAX_I64: int := 0x7FFF_FFFF_FFFF_FFFF

  // -- The normaliser --------------------------------------------------------

  function FromInteger(i: int): Number
  {
    if i >= 0 then PosInt(i) else NegInt(i)
  }

  function BoundedInteger(i: int): Outcome<Number>
  {
    if -MAX_EXACT_INTEGER <= i <= MAX_EXACT_INTEGER then Accepted(FromInteger(i)) else Refused
  }

  function NormaliseNumber(number: Number): Outcome<Number>
  {
    match number
    case PosInt(n) => if n > MAX_I64 then Refused else BoundedInteger(n)
    case NegInt(i) => BoundedInteger(i)
    case NegativeZero => Accepted(PosInt(0))
    case Float(value) =>
      if value != value.Floor as real then Accepted(number)
      else if value > MAX_EXACT_INTEGER as real || -value > MAX_EXACT_INTEGER as real then Refused
      else Accepted(FromInteger(value.Floor))
  }

  function Normalise(json: Json): Outcome<Json>
  {
    match json
    case Num(number) =>
      (match NormaliseNumber(number)
       case Accepted(n) => Accepted(Num(n))
       case Refused => Refused)
    case Arr(items) =>
      (match NormaliseItems(items)
       case Accepted(i) => Accepted(Arr(i))
       case Refused => Refused)
    case Obj(fields) =>
      (match NormaliseFields(fields)
       case Accepted(f) => Accepted(Obj(f))
       case Refused => Refused)
    case _ => Accepted(json)
  }

  function NormaliseItems(items: Items): Outcome<Items>
  {
    match items
    case NoItems => Accepted(NoItems)
    case Item(head, tail) =>
      match (Normalise(head), NormaliseItems(tail))
      case (Accepted(h), Accepted(t)) => Accepted(Item(h, t))
      case _ => Refused
  }

  /** Collecting the members into a sorted map, in which a later member of the same key wins. */
  function NormaliseFields(fields: Fields): Outcome<Fields>
  {
    match fields
    case NoFields => Accepted(NoFields)
    case Field(key, value, rest) =>
      match (Normalise(value), NormaliseFields(rest))
      case (Accepted(v), Accepted(r)) => Accepted(InsertUnlessPresent(key, v, r))
      case _ => Refused
  }

  function InsertUnlessPresent(key: string, value: Json, fields: Fields): Fields
  {
    match fields
    case NoFields => Field(key, value, NoFields)
    case Field(k, v, rest) =>
      if k == key then fields
      else if Below(key, k) then Field(key, value, fields)
      else Field(k, v, InsertUnlessPresent(key, value, rest))
  }

  // -- What a payload means, whatever its spelling ----------------------------

  datatype Meaning =
    | NullMeaning
    | BoolMeaning(b: bool)
    | NumberMeaning(value: real)
    | TextMeaning(text: string)
    | ListMeaning(items: seq<Meaning>)
    | RecordMeaning(members: map<string, Meaning>)

  function NumberValue(number: Number): real
  {
    match number
    case PosInt(n) => n as real
    case NegInt(i) => i as real
    case Float(value) => value
    case NegativeZero => 0.0
  }

  function Means(json: Json): Meaning
  {
    match json
    case Null => NullMeaning
    case Bool(b) => BoolMeaning(b)
    case Num(number) => NumberMeaning(NumberValue(number))
    case Str(text) => TextMeaning(text)
    case Arr(items) => ListMeaning(ItemsMean(items))
    case Obj(fields) => RecordMeaning(FieldsMean(fields))
  }

  function ItemsMean(items: Items): seq<Meaning>
  {
    match items
    case NoItems => []
    case Item(head, tail) => [Means(head)] + ItemsMean(tail)
  }

  function FieldsMean(fields: Fields): map<string, Meaning>
  {
    match fields
    case NoFields => map[]
    case Field(key, value, rest) => map[key := Means(value)] + FieldsMean(rest)
  }

  /** Every integral number, at any depth and in any spelling, is exactly representable. */
  predicate Exact(json: Json)
  {
    match json
    case Num(number) => ExactNumber(NumberValue(number))
    case Arr(items) => ExactItems(items)
    case Obj(fields) => ExactFields(fields)
    case _ => true
  }

  predicate ExactNumber(value: real)
  {
    value == value.Floor as real ==>
      -MAX_EXACT_INTEGER as real <= value <= MAX_EXACT_INTEGER as real
  }

  predicate ExactItems(items: Items)
  {
    items.Item? ==> Exact(items.head) && ExactItems(items.tail)
  }

  predicate ExactFields(fields: Fields)
  {
    fields.Field? ==> Exact(fields.value) && ExactFields(fields.rest)
  }

  // -- Normal forms ------------------------------------------------------------

  predicate IsNormal(json: Json)
  {
    match json
    case Num(number) => IsNormalNumber(number)
    case Arr(items) => AreNormalItems(items)
    case Obj(fields) => AreNormalFields(fields)
    case _ => true
  }

  predicate IsNormalNumber(number: Number)
  {
    match number
    case PosInt(n) => n <= MAX_EXACT_INTEGER
    case NegInt(i) => -MAX_EXACT_INTEGER <= i < 0
    case Float(value) => value != value.Floor as real
    case NegativeZero => false
  }

  predicate AreNormalItems(items: Items)
  {
    items.Item? ==> IsNormal(items.head) && AreNormalItems(items.tail)
  }

  predicate AreNormalFields(fields: Fields)
  {
    fields.Field? ==>
      && IsNormal(fields.value)
      && AreNormalFields(fields.rest)
      && AllAbove(fields.key, fields.rest)
  }

  predicate AllAbove(key: string, fields: Fields)
  {
    fields.Field? ==> Below(key, fields.key) && key != fields.key && AllAbove(key, fields.rest)
  }

  // -- Proofs ------------------------------------------------------------------

  lemma NumberNormalises(number: Number)
    ensures NormaliseNumber(number).Accepted? <==> ExactNumber(NumberValue(number))
    ensures NormaliseNumber(number).Accepted? ==>
              && IsNormalNumber(NormaliseNumber(number).value)
              && NumberValue(NormaliseNumber(number).value) == NumberValue(number)
  {
    match number
    case PosInt(n) => assert (n as real).Floor == n;
    case NegInt(i) => assert (i as real).Floor == i;
    case Float(value) =>
    case NegativeZero => assert (0.0).Floor == 0;
  }

  lemma {:induction false} InsertKeepsOrder(low: string, key: string, value: Json, fields: Fields)
    requires AllAbove(low, fields) && Below(low, key) && low != key
    ensures AllAbove(low, InsertUnlessPresent(key, value, fields))
  {
    if fields.Field? && fields.key != key && !Below(key, fields.key) {
      InsertKeepsOrder(low, key, value, fields.rest);
    }
  }

  lemma {:induction false} AllAboveTransitive(low: string, key: string, fields: Fields)
    requires AllAbove(key, fields) && Below(low, key) && low != key
    ensures AllAbove(low, fields)
  {
    if fields.Field? {
      BelowTransitive(low, key, fields.key);
      if low == fields.key {
        BelowAntisymmetric(low, key);
      }
      AllAboveTransitive(low, key, fields.rest);
    }
  }

  lemma {:induction false} InsertIsNormal(key: string, value: Json, fields: Fields)
    requires IsNormal(value) && AreNormalFields(fields)
    ensures AreNormalFields(InsertUnlessPresent(key, value, fields))
  {
    if fields.Field? && key != fields.key {
      if Below(key, fields.key) {
        AllAboveTransitive(key, fields.key, fields.rest);
      } else {
        BelowTotal(key, fields.key);
        InsertIsNormal(key, value, fields.rest);
        InsertKeepsOrder(fields.key, key, value, fields.rest);
      }
    }
  }

  lemma {:induction false} InsertMeans(key: string, value: Json, fields: Fields)
    ensures FieldsMean(InsertUnlessPresent(key, value, fields)) ==
            map[key := Means(value)] + FieldsMean(fields)
  {
    hide Below, Means;
    if fields.Field? && key != fields.key && !Below(key, fields.key) {
      InsertMeans(key, value, fields.rest);
      var k, m := fields.key, Means(fields.value);
      assert map[k := m] + (map[key := Means(value)] + FieldsMean(fields.rest)) ==
             map[key := Means(value)] + (map[k := m] + FieldsMean(fields.rest));
    }
  }

  /** Normalisation succeeds exactly on the payloads whose integral numbers are exact; its result
      is in normal form and means the same. */
  lemma {:induction false} NormaliseSound(json: Json)
    ensures Normalise(json).Accepted? <==> Exact(json)
    ensures Normalise(json).Accepted? ==>
              IsNormal(Normalise(json).value) && Means(Normalise(json).value) == Means(json)
  {
    match json
    case Num(number) => NumberNormalises(number);
    case Arr(items) => NormaliseItemsSound(items);
    case Obj(fields) => NormaliseFieldsSound(fields);
    case _ =>
  }

  lemma {:induction false} NormaliseItemsSound(items: Items)
    ensures NormaliseItems(items).Accepted? <==> ExactItems(items)
    ensures NormaliseItems(items).Accepted? ==>
              && AreNormalItems(NormaliseItems(items).value)
              && ItemsMean(NormaliseItems(items).value) == ItemsMean(items)
  {
    if items.Item? {
      NormaliseSound(items.head);
      NormaliseItemsSound(items.tail);
    }
  }

  lemma {:induction false} NormaliseFieldsSound(fields: Fields)
    ensures NormaliseFields(fields).Accepted? <==> ExactFields(fields)
    ensures NormaliseFields(fields).Accepted? ==>
              && AreNormalFields(NormaliseFields(fields).value)
              && FieldsMean(NormaliseFields(fields).value) == FieldsMean(fields)
  {
    if fields.Field? {
      NormaliseSound(fields.value);
      NormaliseFieldsSound(fields.rest);
      if ExactFields(fields) {
        var v, r := Normalise(fields.value).value, NormaliseFields(fields.rest).value;
        InsertIsNormal(fields.key, v, r);
        InsertMeans(fields.key, v, r);
      }
    }
  }

  /** Two normal numbers of one value are spelled alike. */
  lemma NormalNumberUnique(a: Number, b: Number)
    requires IsNormalNumber(a) && IsNormalNumber(b) && NumberValue(a) == NumberValue(b)
    ensures a == b
  {
    assert a.PosInt? ==> (a.n as real).Floor == a.n;
    assert a.NegInt? ==> (a.i as real).Floor == a.i;
    assert b.PosInt? ==> (b.n as real).Floor == b.n;
    assert b.NegInt? ==> (b.i as real).Floor == b.i;
  }

  /** The keys of a list all of whose keys are above `key` leave `key` out. */
  lemma {:induction false} KeysAbove(key: string, fields: Fields)
    requires AllAbove(key, fields)
    ensures key !in FieldsMean(fields)
    ensures forall k :: k in FieldsMean(fields) ==> Below(key, k)
  {
    if fields.Field? {
      KeysAbove(key, fields.rest);
    }
  }

  /** A meaning has one normal spelling. */
  lemma {:induction false} NormalFormUnique(a: Json, b: Json)
    requires IsNormal(a) && IsNormal(b) && Means(a) == Means(b)
    ensures a == b
    decreases a
  {
    match a
    case Num(number) => NormalNumberUnique(number, b.number);
    case Arr(items) => NormalItemsUnique(items, b.items);
    case Obj(fields) => NormalFieldsUnique(fields, b.fields);
    case _ =>
  }

  lemma {:induction false} NormalItemsUnique(a: Items, b: Items)
    requires AreNormalItems(a) && AreNormalItems(b) && ItemsMean(a) == ItemsMean(b)
    ensures a == b
    decreases a
  {
    if a.Item? && b.Item? {
      assert ItemsMean(a)[0] == Means(a.head) && ItemsMean(b)[0] == Means(b.head);
      assert ItemsMean(a)[1..] == ItemsMean(a.tail) && ItemsMean(b)[1..] == ItemsMean(b.tail);
      NormalFormUnique(a.head, b.head);
      NormalItemsUnique(a.tail, b.tail);
    }
  }

  lemma {:induction false} NormalFieldsUnique(a: Fields, b: Fields)
    requires AreNormalFields(a) && AreNormalFields(b) && FieldsMean(a) == FieldsMean(b)
    ensures a == b
    decreases a
  {
    assert a.Field? ==> a.key in FieldsMean(a);
    assert b.Field? ==> b.key in FieldsMean(b);
    if a.Field? && b.Field? {
      KeysAbove(a.key, a.rest);
      KeysAbove(b.key, b.rest);
      if a.key != b.key {
        BelowAntisymmetric(a.key, b.key);
      }
      assert FieldsMean(a)[a.key] == Means(a.value) && FieldsMean(b)[b.key] == Means(b.value);
      NormalFormUnique(a.value, b.value);
      assert FieldsMean(a.rest) == FieldsMean(a) - {a.key};
      assert FieldsMean(b.rest) == FieldsMean(b) - {b.key};
      NormalFieldsUnique(a.rest, b.rest);
    }
  }

  // -- Results -----------------------------------------------------------------

  /** Payloads are refused exactly when some integral number, at any depth, is beyond the exact
      range, and two accepted payloads normalise equally exactly when they mean the same: equal
      up to the spelling of numbers and the order of object keys. */
  lemma CanonicalPayloadsDecideMeaning(a: Json, b: Json)
    ensures Normalise(a).Accepted? <==> Exact(a)
    ensures Exact(a) && Exact(b) ==> (Normalise(a) == Normalise(b) <==> Means(a) == Means(b))
  {
    NormaliseSound(a);
    NormaliseSound(b);
    if Exact(a) && Exact(b) && Means(a) == Means(b) {
      NormalFormUnique(Normalise(a).value, Normalise(b).value);
    }
  }

  /** Normalising a normalised payload changes nothing. */
  lemma NormaliseIdempotent(json: Json)
    requires Normalise(json).Accepted?
    ensures Normalise(Normalise(json).value) == Normalise(json)
  {
    NormaliseSound(json);
    var once := Normalise(json).value;
    NormaliseSound(once);
    NormalIsExact(once);
    NormalFormUnique(Normalise(once).value, once);
  }

  lemma {:induction false} NormalIsExact(json: Json)
    requires IsNormal(json)
    ensures Exact(json)
  {
    match json
    case Num(number) =>
      assert number.PosInt? ==> (number.n as real).Floor == number.n;
    case Arr(items) => NormalItemsAreExact(items);
    case Obj(fields) => NormalFieldsAreExact(fields);
    case _ =>
  }

  lemma {:induction false} NormalItemsAreExact(items: Items)
    requires AreNormalItems(items)
    ensures ExactItems(items)
  {
    if items.Item? {
      NormalIsExact(items.head);
      NormalItemsAreExact(items.tail);
    }
  }

  lemma {:induction false} NormalFieldsAreExact(fields: Fields)
    requires AreNormalFields(fields)
    ensures ExactFields(fields)
  {
    if fields.Field? {
      NormalIsExact(fields.value);
      NormalFieldsAreExact(fields.rest);
    }
  }

  /** The comparison value of a request: its context, the task it continues, and its payload
      up to spelling. The request id and the idempotency key are not part of it. */
  datatype Identity = Identity(contextId: string, continues: TaskRef, payload: Json)

  datatype TaskRef = NewTask | ExistingTask(id: string)

  function InputIdentity(contextId: string, continues: TaskRef, payload: Json): Outcome<Identity>
  {
    match Normalise(payload)
    case Accepted(p) => Accepted(Identity(contextId, continues, p))
    case Refused => Refused
  }

  /** Two requests have one identity exactly when context, continued task and meaning agree. */
  lemma InputIdentityDecides(c1: string, t1: TaskRef, p1: Json, c2: string, t2: TaskRef, p2: Json)
    requires Exact(p1) && Exact(p2)
    ensures InputIdentity(c1, t1, p1).Accepted?
    ensures InputIdentity(c1, t1, p1) == InputIdentity(c2, t2, p2) <==>
            c1 == c2 && t1 == t2 && Means(p1) == Means(p2)
  {
    CanonicalPayloadsDecideMeaning(p1, p2);
    NormaliseSound(p2);
  }
}
