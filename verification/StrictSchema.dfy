/** Making a tool's parameter schema strict: every object in it forbids additional properties. */
module StrictSchema {
  import opened Characters

  /** The keys the provider knows, and all the others. */
  datatype Key = Type | AdditionalProperties | Properties | Items | AnyOf | OneOf | AllOf | Other(name: string)

  datatype Json =
    | Null
    | Bool(value: bool)
    | Number(number: real)
    | Str(text: string)
    | Arr(elements: seq<Json>)
    | Obj(fields: map<Key, Json>)

  predicate Composite(key: Key) {
    key.AnyOf? || key.OneOf? || key.AllOf?
  }

  function Keep(fields: map<Key, Json>, key: Key): Json {
    if key in fields then fields[key] else Null
  }

  function Stripped(text: string): string {
    if text != [] && IsSpace(text[0]) then Stripped(text[1..])
    else if text != [] && IsSpace(text[|text| - 1]) then Stripped(text[..|text| - 1])
    else text
  }

  /** The normalised type of a schema. */
  predicate TypeIs(fields: map<Key, Json>, name: string) {
    Keep(fields, Type).Str? && Lower(Stripped(fields[Type].text)) == name
  }

  predicate IsObject(fields: map<Key, Json>) {
    TypeIs(fields, "object") || Keep(fields, Properties).Obj?
  }

  predicate Descends(fields: map<Key, Json>) {
    TypeIs(fields, "array") && (Keep(fields, Items).Obj? || Keep(fields, Items).Arr?)
  }

  function Strictify(schema: Json): Json {
    match schema
    case Arr(elements) => Arr(seq(|elements|, i requires 0 <= i < |elements| => Strictify(elements[i])))
    case Obj(fields) =>
      Obj(map key | key in fields.Keys + (if IsObject(fields) then {Type, AdditionalProperties} else {}) ::
        if IsObject(fields) && key.Type? then Str("object")
        else if IsObject(fields) && key.AdditionalProperties? then Bool(false)
        else if IsObject(fields) && key.Properties? && fields[key].Obj? then
          Obj(map name | name in fields[key].fields :: Strictify(fields[key].fields[name]))
        else if (key.Items? && Descends(fields)) || (Composite(key) && fields[key].Arr?) then Strictify(fields[key])
        else fields[key])
    case _ => schema
  }

  /** Every object the model provider looks at forbids additional properties. */
  predicate IsStrict(schema: Json) {
    match schema
    case Arr(elements) => forall i :: 0 <= i < |elements| ==> IsStrict(elements[i])
    case Obj(fields) =>
      && (IsObject(fields) ==> Keep(fields, AdditionalProperties) == Bool(false))
      && (Keep(fields, Properties).Obj? ==>
            forall name :: name in fields[Properties].fields ==> IsStrict(fields[Properties].fields[name]))
      && (Items in fields ==> IsStrict(fields[Items]))
      && (forall key :: key in fields && Composite(key) && fields[key].Arr? ==> IsStrict(fields[key]))
    case _ => true
  }

  /** Every item schema that is not under an array type, wherever it stands, is strict to begin with. */
  predicate LooseItemsAreStrict(schema: Json) {
    match schema
    case Arr(elements) => forall i :: 0 <= i < |elements| ==> LooseItemsAreStrict(elements[i])
    case Obj(fields) =>
      && (Keep(fields, Properties).Obj? ==>
            forall name :: name in fields[Properties].fields ==> LooseItemsAreStrict(fields[Properties].fields[name]))
      && (Items in fields ==>
            if Descends(fields) then LooseItemsAreStrict(fields[Items]) else IsStrict(fields[Items]))
      && (forall key :: key in fields && Composite(key) && fields[key].Arr? ==> LooseItemsAreStrict(fields[key]))
    case _ => true
  }

  lemma ObjectIsNormal()
    ensures Lower(Stripped("object")) == "object"
  {
    assert Stripped("object") == "object";
    assert forall i :: 0 <= i < 6 ==> Lower("object")[i] == "object"[i];
  }

  /** What becomes of the parts of an object schema. */
  lemma StrictFields(fields: map<Key, Json>)
    ensures var out := Strictify(Obj(fields)).fields;
            && (IsObject(out) <==> IsObject(fields))
            && (IsObject(fields) ==> Keep(out, AdditionalProperties) == Bool(false) && Keep(out, Type) == Str("object"))
            && (Keep(out, Properties).Obj? <==> Keep(fields, Properties).Obj?)
            && (Items in out <==> Items in fields)
            && (Items in fields ==> out[Items] == if Descends(fields) then Strictify(fields[Items]) else fields[Items])
            && (forall key :: Composite(key) ==>
                  Keep(out, key) == if Keep(fields, key).Arr? then Strictify(fields[key]) else Keep(fields, key))
  {
    hide Lower, Stripped;
    ObjectIsNormal();
  }

  lemma StrictProperties(fields: map<Key, Json>)
    requires Keep(fields, Properties).Obj?
    ensures var out := Strictify(Obj(fields)).fields;
            && Keep(out, Properties).Obj? && out[Properties].fields.Keys == fields[Properties].fields.Keys
            && (forall name :: name in fields[Properties].fields ==>
                  out[Properties].fields[name] == Strictify(fields[Properties].fields[name]))
  {
    hide TypeIs;
  }

  lemma StrictElements(elements: seq<Json>)
    ensures Strictify(Arr(elements)).Arr? && |Strictify(Arr(elements)).elements| == |elements|
    ensures forall i :: 0 <= i < |elements| ==> Strictify(Arr(elements)).elements[i] == Strictify(elements[i])
    ensures IsStrict(Strictify(Arr(elements))) <==> forall i :: 0 <= i < |elements| ==> IsStrict(Strictify(elements[i]))
  {
    hide IsObject, Descends, Keep;
    var out := Strictify(Arr(elements)).elements;
    assert IsStrict(Arr(out)) <==> forall i :: 0 <= i < |out| ==> IsStrict(out[i]);
  }

  /** The strict form is strict exactly when the item schemas it does not descend into were. */
  lemma {:induction false} StrictExactly(schema: Json)
    ensures IsStrict(Strictify(schema)) <==> LooseItemsAreStrict(schema)
    decreases schema
  {
    hide TypeIs, IsObject, Descends;
    match schema
    case Arr(elements) =>
      forall i | 0 <= i < |elements|
        ensures IsStrict(Strictify(elements[i])) <==> LooseItemsAreStrict(elements[i])
      {
        StrictExactly(elements[i]);
      }
      StrictElements(elements);
    case Obj(fields) =>
      StrictExactlyInside(fields);
      StrictFields(fields);
      if Keep(fields, Properties).Obj? { StrictProperties(fields); }
    case _ =>
  }

  lemma {:induction false} StrictExactlyInside(fields: map<Key, Json>)
    ensures Keep(fields, Properties).Obj? ==>
              forall name :: name in fields[Properties].fields ==>
                (IsStrict(Strictify(fields[Properties].fields[name])) <==>
                 LooseItemsAreStrict(fields[Properties].fields[name]))
    ensures Items in fields ==> (IsStrict(Strictify(fields[Items])) <==> LooseItemsAreStrict(fields[Items]))
    ensures forall key :: key in fields && Composite(key) ==>
              (IsStrict(Strictify(fields[key])) <==> LooseItemsAreStrict(fields[key]))
    decreases Obj(fields), 0
  {
    hide Strictify, IsStrict, LooseItemsAreStrict;
    forall key | key in fields ensures IsStrict(Strictify(fields[key])) <==> LooseItemsAreStrict(fields[key]) {
      StrictExactly(fields[key]);
    }
    if Keep(fields, Properties).Obj? {
      var properties := fields[Properties].fields;
      assert fields[Properties] < Obj(fields);
      forall name | name in properties
        ensures IsStrict(Strictify(properties[name])) <==> LooseItemsAreStrict(properties[name])
      {
        assert properties[name] < fields[Properties];
        StrictExactly(properties[name]);
      }
    }
  }

  /** Items only ever stand under array types. */
  predicate ItemsUnderArrays(schema: Json) {
    match schema
    case Arr(elements) => forall i :: 0 <= i < |elements| ==> ItemsUnderArrays(elements[i])
    case Obj(fields) =>
      && (Keep(fields, Properties).Obj? ==>
            forall name :: name in fields[Properties].fields ==> ItemsUnderArrays(fields[Properties].fields[name]))
      && (Items in fields ==> TypeIs(fields, "array") && ItemsUnderArrays(fields[Items]))
      && (forall key :: key in fields && Composite(key) && fields[key].Arr? ==> ItemsUnderArrays(fields[key]))
    case _ => true
  }

  lemma {:induction false} ArraysLeaveNothingLoose(schema: Json)
    requires ItemsUnderArrays(schema)
    ensures LooseItemsAreStrict(schema)
    decreases schema
  {
    hide TypeIs, Strictify;
    match schema
    case Arr(elements) =>
      forall i | 0 <= i < |elements| ensures LooseItemsAreStrict(elements[i]) { ArraysLeaveNothingLoose(elements[i]); }
    case Obj(fields) =>
      if Keep(fields, Properties).Obj? {
        var properties := fields[Properties].fields;
        assert fields[Properties] < schema;
        forall name | name in properties ensures LooseItemsAreStrict(properties[name]) {
          assert properties[name] < fields[Properties];
          ArraysLeaveNothingLoose(properties[name]);
        }
      }
      if Items in fields { ArraysLeaveNothingLoose(fields[Items]); }
      forall key | key in fields && Composite(key) && fields[key].Arr? ensures LooseItemsAreStrict(fields[key]) {
        ArraysLeaveNothingLoose(fields[key]);
      }
    case _ =>
  }

  /** A schema whose items stand under array types becomes strict. */
  lemma StrictifyMakesStrict(schema: Json)
    requires ItemsUnderArrays(schema)
    ensures IsStrict(Strictify(schema))
  {
    ArraysLeaveNothingLoose(schema);
    StrictExactly(schema);
  }

  /** Once strict, always the same. */
  lemma {:induction false} StrictifyIsIdempotent(schema: Json)
    ensures Strictify(Strictify(schema)) == Strictify(schema)
    decreases schema
  {
    match schema
    case Arr(elements) =>
      forall i | 0 <= i < |elements| ensures Strictify(Strictify(elements[i])) == Strictify(elements[i]) {
        StrictifyIsIdempotent(elements[i]);
      }
      StrictElements(elements);
      StrictElements(Strictify(schema).elements);
    case Obj(fields) =>
      StrictifiedInside(fields);
      var once := Strictify(schema).fields;
      SameKeys(fields);
      forall key | key in once ensures Strictify(Obj(once)).fields[key] == once[key] { SameField(fields, key); }
    case _ =>
  }

  /** The parts that Strictify descends into are settled. */
  ghost predicate Settled(fields: map<Key, Json>) {
    && (forall key :: key in fields ==> Strictify(Strictify(fields[key])) == Strictify(fields[key]))
    && (Keep(fields, Properties).Obj? ==>
          forall name :: name in fields[Properties].fields ==>
            Strictify(Strictify(fields[Properties].fields[name])) == Strictify(fields[Properties].fields[name]))
  }

  lemma {:induction false} StrictifiedInside(fields: map<Key, Json>)
    ensures Settled(fields)
    decreases Obj(fields), 0
  {
    hide Strictify;
    forall key | key in fields ensures Strictify(Strictify(fields[key])) == Strictify(fields[key]) {
      StrictifyIsIdempotent(fields[key]);
    }
    if Keep(fields, Properties).Obj? {
      var properties := fields[Properties].fields;
      assert fields[Properties] < Obj(fields);
      forall name | name in properties ensures Strictify(Strictify(properties[name])) == Strictify(properties[name]) {
        assert properties[name] < fields[Properties];
        StrictifyIsIdempotent(properties[name]);
      }
    }
  }

  lemma SameKeys(fields: map<Key, Json>)
    ensures var once := Strictify(Obj(fields)).fields;
            Strictify(Obj(once)).Obj? && Strictify(Obj(once)).fields.Keys == once.Keys
  {
    hide TypeIs, IsObject, Descends;
    StrictFields(fields);
  }

  lemma SameField(fields: map<Key, Json>, key: Key)
    requires Settled(fields) && key in Strictify(Obj(fields)).fields
    ensures var once := Strictify(Obj(fields)).fields;
            key in Strictify(Obj(once)).fields && Strictify(Obj(once)).fields[key] == once[key]
  {
    hide TypeIs, Descends;
    var once := Strictify(Obj(fields)).fields;
    SameKeys(fields);
    StrictFields(fields);
    StrictFields(once);
    match key
    case Properties =>
      if Keep(fields, Properties).Obj? {
        StrictProperties(fields);
        StrictProperties(once);
        assert Strictify(Obj(once)).fields[Properties].fields == once[Properties].fields;
      }
    case Items => DescendsOnce(fields);
    case _ =>
  }

  /** The strict form is descended into again only where it was before. */
  lemma DescendsOnce(fields: map<Key, Json>)
    ensures Descends(Strictify(Obj(fields)).fields) ==> Descends(fields)
  {
    hide Lower, Stripped;
    ObjectIsNormal();
    StrictFields(fields);
  }

  // ---------- what is left alone ----------

  /** A schema without what is enforced on its objects. */
  function Bare(schema: Json): Json {
    match schema
    case Arr(elements) => Arr(seq(|elements|, i requires 0 <= i < |elements| => Bare(elements[i])))
    case Obj(fields) =>
      Obj(map key | key in fields && !(IsObject(fields) && (key.Type? || key.AdditionalProperties?)) ::
        if key.Properties? && fields[key].Obj? then
          Obj(map name | name in fields[key].fields :: Bare(fields[key].fields[name]))
        else Bare(fields[key]))
    case _ => schema
  }

  /** The parts that Strictify descends into keep all but what is enforced. */
  ghost predicate KeptInside(fields: map<Key, Json>) {
    && (forall key :: key in fields ==> Bare(Strictify(fields[key])) == Bare(fields[key]))
    && (Keep(fields, Properties).Obj? ==>
          forall name :: name in fields[Properties].fields ==>
            Bare(Strictify(fields[Properties].fields[name])) == Bare(fields[Properties].fields[name]))
  }

  /** Strictify changes nothing but what it enforces. */
  lemma {:induction false} OnlyEnforces(schema: Json)
    ensures Bare(Strictify(schema)) == Bare(schema)
    decreases schema
  {
    hide TypeIs, IsObject, Descends;
    match schema
    case Arr(elements) =>
      forall i | 0 <= i < |elements| ensures Bare(Strictify(elements[i])) == Bare(elements[i]) {
        OnlyEnforces(elements[i]);
      }
      BareElements(elements);
    case Obj(fields) =>
      OnlyEnforcesInside(fields);
      BareKeys(fields);
      var out := Strictify(schema).fields;
      forall key | key in Bare(schema).fields ensures Bare(Obj(out)).fields[key] == Bare(schema).fields[key] {
        BareField(fields, key);
      }
    case _ =>
  }

  lemma BareElements(elements: seq<Json>)
    requires forall i :: 0 <= i < |elements| ==> Bare(Strictify(elements[i])) == Bare(elements[i])
    ensures Bare(Strictify(Arr(elements))) == Bare(Arr(elements))
  {
    hide IsObject, Descends, Keep;
    StrictElements(elements);
    var out := Strictify(Arr(elements)).elements;
    assert Bare(Arr(out)).elements == Bare(Arr(elements)).elements;
  }

  lemma {:induction false} OnlyEnforcesInside(fields: map<Key, Json>)
    ensures KeptInside(fields)
    decreases Obj(fields), 0
  {
    hide Strictify, Bare;
    forall key | key in fields ensures Bare(Strictify(fields[key])) == Bare(fields[key]) {
      OnlyEnforces(fields[key]);
    }
    if Keep(fields, Properties).Obj? {
      var properties := fields[Properties].fields;
      assert fields[Properties] < Obj(fields);
      forall name | name in properties ensures Bare(Strictify(properties[name])) == Bare(properties[name]) {
        assert properties[name] < fields[Properties];
        OnlyEnforces(properties[name]);
      }
    }
  }

  lemma BareKeys(fields: map<Key, Json>)
    ensures var out := Strictify(Obj(fields)).fields;
            Bare(Obj(out)).Obj? && Bare(Obj(out)).fields.Keys == Bare(Obj(fields)).fields.Keys
  {
    hide TypeIs, IsObject, Descends;
    StrictFields(fields);
  }

  lemma BareField(fields: map<Key, Json>, key: Key)
    requires KeptInside(fields) && key in Bare(Obj(fields)).fields
    ensures var out := Strictify(Obj(fields)).fields;
            key in Bare(Obj(out)).fields && Bare(Obj(out)).fields[key] == Bare(Obj(fields)).fields[key]
  {
    hide TypeIs, IsObject, Descends;
    var out := Strictify(Obj(fields)).fields;
    BareKeys(fields);
    StrictFields(fields);
    if key.Properties? && fields[key].Obj? {
      StrictProperties(fields);
      assert Bare(Obj(out)).fields[key].fields == Bare(Obj(fields)).fields[key].fields;
    }
  }

  // ---------- the parts of a schema ----------

  /** The text is a word in any case, with white space around it. */
  ghost predicate Spells(text: string, name: string) {
    exists from, to ::
      && 0 <= from < to <= |text| && Lower(text[from..to]) == name
      && !IsSpace(text[from]) && !IsSpace(text[to - 1])
      && (forall i :: 0 <= i < from || to <= i < |text| ==> IsSpace(text[i]))
  }

  lemma {:induction false} StripsTo(text: string, from: nat, to: nat)
    requires from < to <= |text| && !IsSpace(text[from]) && !IsSpace(text[to - 1])
    requires forall i :: 0 <= i < from || to <= i < |text| ==> IsSpace(text[i])
    ensures Stripped(text) == text[from..to]
    decreases |text|
  {
    if from > 0 {
      assert text[1..][from - 1..to - 1] == text[from..to];
      StripsTo(text[1..], from - 1, to - 1);
    } else if to < |text| {
      assert text[..|text| - 1][from..to] == text[from..to];
      StripsTo(text[..|text| - 1], from, to);
    } else {
      assert text[from..to] == text;
    }
  }

  /** Where the stripped text stands. */
  lemma {:induction false} StrippedFrom(text: string) returns (from: nat, to: nat)
    requires Stripped(text) != ""
    ensures from < to <= |text| && Stripped(text) == text[from..to]
    ensures !IsSpace(text[from]) && !IsSpace(text[to - 1])
    ensures forall i :: 0 <= i < from || to <= i < |text| ==> IsSpace(text[i])
    decreases |text|
  {
    if IsSpace(text[0]) {
      from, to := StrippedFrom(text[1..]);
      assert forall i :: 0 <= i < |text| - 1 ==> text[1..][i] == text[i + 1];
      assert text[1..][from..to] == text[from + 1..to + 1];
      forall i | 0 <= i < from + 1 || to + 1 <= i < |text| ensures IsSpace(text[i]) {
        if i > 0 { assert text[1..][i - 1] == text[i]; }
      }
      from, to := from + 1, to + 1;
    } else if IsSpace(text[|text| - 1]) {
      from, to := StrippedFrom(text[..|text| - 1]);
      assert text[..|text| - 1][from..to] == text[from..to];
      assert forall i :: 0 <= i < |text| - 1 ==> text[..|text| - 1][i] == text[i];
    } else {
      from, to := 0, |text|;
      assert text[0..|text|] == text;
    }
  }

  lemma TypeExactly(fields: map<Key, Json>, name: string)
    requires name != ""
    ensures TypeIs(fields, name) <==> Type in fields && fields[Type].Str? && Spells(fields[Type].text, name)
  {
    if Type in fields && fields[Type].Str? {
      var text := fields[Type].text;
      if Lower(Stripped(text)) == name {
        var from, to := StrippedFrom(text);
        assert Spells(text, name);
      }
      if Spells(text, name) {
        var from, to :| && 0 <= from < to <= |text| && Lower(text[from..to]) == name
                        && !IsSpace(text[from]) && !IsSpace(text[to - 1])
                        && (forall i :: 0 <= i < from || to <= i < |text| ==> IsSpace(text[i]));
        StripsTo(text, from, to);
      }
    }
  }

  ghost predicate Typed(fields: map<Key, Json>, name: string) {
    Type in fields && fields[Type].Str? && Spells(fields[Type].text, name)
  }

  /** A schema of an object: by its type, or because it has properties. */
  ghost predicate ForObject(fields: map<Key, Json>) {
    Typed(fields, "object") || (Properties in fields && fields[Properties].Obj?)
  }

  lemma ObjectExactly(fields: map<Key, Json>)
    ensures IsObject(fields) <==> ForObject(fields)
  {
    hide TypeIs, Spells;
    TypeExactly(fields, "object");
  }

  /** What becomes of each key of a schema. */
  lemma FieldsExactly(fields: map<Key, Json>, key: Key)
    ensures var out := Strictify(Obj(fields)).fields;
            && (key in out <==> key in fields || (ForObject(fields) && (key == Type || key == AdditionalProperties)))
            && (ForObject(fields) && key == Type ==> out[key] == Str("object"))
            && (ForObject(fields) && key == AdditionalProperties ==> out[key] == Bool(false))
            && (key in fields && !(ForObject(fields) && (key == Type || key == AdditionalProperties)) ==>
                  var given := fields[key];
                  if key == Properties && given.Obj? then
                    && out[key].Obj? && out[key].fields.Keys == given.fields.Keys
                    && forall name <- given.fields :: out[key].fields[name] == Strictify(given.fields[name])
                  else if (key == Items && Typed(fields, "array") && (given.Obj? || given.Arr?))
                          || ((key == AnyOf || key == OneOf || key == AllOf) && given.Arr?) then
                    out[key] == Strictify(given)
                  else out[key] == given)
  {
    hide TypeIs, Spells;
    ObjectExactly(fields);
    TypeExactly(fields, "array");
    if key == Properties && key in fields && fields[key].Obj? { StrictProperties(fields); }
  }

  /** The schemas directly inside another one. */
  ghost predicate IsPart(schema: Json, part: Json) {
    match schema
    case Arr(elements) => part in elements
    case Obj(fields) =>
      || (Properties in fields && fields[Properties].Obj? && part in fields[Properties].fields.Values)
      || (Items in fields && part == fields[Items])
      || (AnyOf in fields && fields[AnyOf].Arr? && part in fields[AnyOf].elements)
      || (OneOf in fields && fields[OneOf].Arr? && part in fields[OneOf].elements)
      || (AllOf in fields && fields[AllOf].Arr? && part in fields[AllOf].elements)
    case _ => false
  }

  ghost predicate Within(schema: Json, part: Json, depth: nat) {
    if depth == 0 then part == schema
    else exists inner :: IsPart(schema, inner) && Within(inner, part, depth - 1)
  }

  ghost predicate ForbidsMore(schema: Json) {
    schema.Obj? && ForObject(schema.fields) ==>
      AdditionalProperties in schema.fields && schema.fields[AdditionalProperties] == Bool(false)
  }

  lemma PartIsStrict(schema: Json, part: Json)
    requires IsStrict(schema) && IsPart(schema, part)
    ensures IsStrict(part)
  {
    hide IsObject;
    match schema
    case Arr(elements) =>
    case Obj(fields) =>
      if Properties in fields && fields[Properties].Obj? && part in fields[Properties].fields.Values {
        var name :| name in fields[Properties].fields && fields[Properties].fields[name] == part;
      }
      assert Composite(AnyOf) && Composite(OneOf) && Composite(AllOf);
    case _ =>
  }

  lemma StrictForbids(schema: Json)
    requires IsStrict(schema)
    ensures ForbidsMore(schema)
  {
    if schema.Obj? { ObjectExactly(schema.fields); }
  }

  lemma {:induction false} WithinIsStrict(schema: Json, part: Json, depth: nat)
    requires IsStrict(schema) && Within(schema, part, depth)
    ensures IsStrict(part)
    decreases depth
  {
    hide IsStrict, IsPart;
    if depth > 0 {
      var inner :| IsPart(schema, inner) && Within(inner, part, depth - 1);
      PartIsStrict(schema, inner);
      WithinIsStrict(inner, part, depth - 1);
    }
  }

  /** A schema that is not strict has a part that does not forbid more. */
  lemma {:induction false} LoosePart(schema: Json) returns (part: Json, depth: nat)
    requires !IsStrict(schema)
    ensures Within(schema, part, depth) && !ForbidsMore(part)
    decreases schema
  {
    hide Within, ForbidsMore, IsObject;
    if schema.Obj? && !ForbidsMore(schema) {
      part, depth := schema, 0;
      assert Within(schema, schema, 0) by { Itself(schema); }
    } else {
      var inner := LooseInside(schema);
      part, depth := LoosePart(inner);
      Deeper(schema, inner, part, depth);
      depth := depth + 1;
    }
  }

  lemma Itself(schema: Json)
    ensures Within(schema, schema, 0)
  {
  }

  lemma Deeper(schema: Json, inner: Json, part: Json, depth: nat)
    requires IsPart(schema, inner) && Within(inner, part, depth)
    ensures Within(schema, part, depth + 1)
  {
  }

  lemma LooseInside(schema: Json) returns (inner: Json)
    requires !IsStrict(schema) && (schema.Obj? ==> ForbidsMore(schema))
    ensures IsPart(schema, inner) && !IsStrict(inner) && inner < schema
  {
    hide IsObject;
    match schema {
      case Arr(elements) =>
        var i :| 0 <= i < |elements| && !IsStrict(elements[i]);
        inner := elements[i];
      case Obj(fields) =>
        ObjectExactly(fields);
        inner := LooseField(fields);
      case _ =>
        assert false;
    }
  }

  lemma LooseField(fields: map<Key, Json>) returns (inner: Json)
    requires !IsStrict(Obj(fields)) && (IsObject(fields) ==> Keep(fields, AdditionalProperties) == Bool(false))
    ensures IsPart(Obj(fields), inner) && !IsStrict(inner) && inner < Obj(fields)
  {
    hide IsObject;
    if Items in fields && !IsStrict(fields[Items]) {
      inner := fields[Items];
    } else if key :| key in fields && Composite(key) && fields[key].Arr? && !IsStrict(fields[key]) {
      var i :| 0 <= i < |fields[key].elements| && !IsStrict(fields[key].elements[i]);
      inner := fields[key].elements[i];
      assert fields[key] < Obj(fields) && inner < fields[key];
    } else {
      var properties := fields[Properties].fields;
      var name :| name in properties && !IsStrict(properties[name]);
      inner := properties[name];
      assert fields[Properties] < Obj(fields) && inner < fields[Properties];
    }
  }

  /** A schema passes the strictness test exactly when every schema of an object in it, at any depth,
      forbids additional properties. */
  lemma StrictMeansEveryObject(schema: Json)
    ensures IsStrict(schema) <==> forall part, depth :: Within(schema, part, depth) ==> ForbidsMore(part)
  {
    hide IsStrict, Within, ForbidsMore;
    if IsStrict(schema) {
      forall part, depth | Within(schema, part, depth) ensures ForbidsMore(part) {
        WithinIsStrict(schema, part, depth);
        StrictForbids(part);
      }
    } else {
      var part, depth := LoosePart(schema);
    }
  }
}
