/**
 The strict-mode rewriting of an output schema, and the validator that gives schemas
 their meaning.
 */
module Schema {
  import opened Common

  datatype Json =
    | Null | Bool(b: bool) | Num(n: real) | Str(s: string)
    | Arr(elements: seq<Json>) | Obj(fields: map<string, Json>)

  /** `TAbsent` is the JavaScript `undefined` that a union is given when a node has no type. */
  datatype TypeName = TObject | TArray | TString | TNumber | TBoolean | TNull | TOther(name: string) | TAbsent

  datatype TypeKeyword = NoType | One(t: TypeName) | Many(ts: seq<TypeName>)

  datatype Property = Property(key: string, schema: Schema)

  /** The `properties` and `items` keywords, when they are there. */
  datatype Properties = NoProperties | Properties(list: seq<Property>)

  datatype Items = NoItems | Items(schema: Schema)

  /**
   `type`, `enum`, `required` and `properties` are the keywords of sections 6.1.1, 6.1.2,
   6.5.3 and 6.5.4 of draft-handrews-json-schema-validation-01.
   */
  datatype Schema = Schema(
    types: TypeKeyword,
    enumVals: Option<seq<Json>>,
    required: Option<seq<string>>,
    properties: Properties,
    items: Items,
    additionalProperties: Option<bool>)
  {
    /** The properties, none when the keyword is missing. */
    function Props(): seq<Property> { if properties.Properties? then properties.list else [] }

    function Required(): seq<string> { if required.Some? then required.value else [] }
  }

  // ---------------------------------------------------------------- the validator

  function TypeOf(v: Json): TypeName {
    match v
    case Null => TNull
    case Bool(_) => TBoolean
    case Num(_) => TNumber
    case Str(_) => TString
    case Arr(_) => TArray
    case Obj(_) => TObject
  }

  function Allowed(t: TypeKeyword): seq<TypeName>
    requires !t.NoType?
  {
    if t.One? then [t.t] else t.ts
  }

  predicate TypeAdmits(t: TypeKeyword, v: Json) { t.NoType? || TypeOf(v) in Allowed(t) }

  /** `Array.includes`: an object or array is never the very one the schema lists. */
  predicate Includes(vals: seq<Json>, v: Json) { !v.Obj? && !v.Arr? && v in vals }

  predicate EnumAdmits(s: Schema, v: Json) { s.enumVals.None? || Includes(s.enumVals.value, v) }

  predicate ChecksFields(s: Schema, v: Json) { !s.types.NoType? && TObject in Allowed(s.types) && v.Obj? }

  datatype Issue = WrongType(got: TypeName) | NotInEnum | Missing(key: string) | At(key: string, issue: Issue)

  function MissingOf(fields: map<string, Json>, required: seq<string>): seq<Issue> {
    if required == [] then []
    else MissingOf(fields, Front(required)) + if Last(required) in fields then [] else [Missing(Last(required))]
  }

  function Nested(key: string, issues: seq<Issue>): seq<Issue> { seq(|issues|, i requires 0 <= i < |issues| => At(key, issues[i])) }

  /** Every error, in the order the validator reports them. */
  function Errors(v: Json, s: Schema): seq<Issue>
    decreases s, 1
  {
    if !TypeAdmits(s.types, v) then [WrongType(TypeOf(v))]
    else
      (if EnumAdmits(s, v) then [] else [NotInEnum])
      + if ChecksFields(s, v) then MissingOf(v.fields, s.Required()) + FieldErrors(v.fields, s, |s.Props()|) else []
  }

  /** The errors inside the first `n` properties. */
  function FieldErrors(fields: map<string, Json>, s: Schema, n: nat): seq<Issue>
    requires n <= |s.Props()|
    decreases s, 0, n
  {
    if n == 0 then []
    else
      FieldErrors(fields, s, n - 1)
      + var p := s.Props()[n - 1];
        if p.key in fields then Nested(p.key, Errors(fields[p.key], p.schema)) else []
  }

  /** What the validator decides, without the bookkeeping. */
  predicate Conforms(v: Json, s: Schema)
    decreases s
  {
    && TypeAdmits(s.types, v)
    && EnumAdmits(s, v)
    && (ChecksFields(s, v) ==>
          && (forall key :: key in s.Required() ==> key in v.fields)
          && (forall p :: p in s.Props() && p.key in v.fields ==> Conforms(v.fields[p.key], p.schema)))
  }

  lemma {:induction false} MissingNone(fields: map<string, Json>, required: seq<string>)
    ensures MissingOf(fields, required) == [] <==> forall key :: key in required ==> key in fields
  {
    if required == [] {
    } else {
      MissingNone(fields, Front(required));
      assert required == Front(required) + [Last(required)];
    }
  }

  /** A value has no errors exactly when it conforms. */
  lemma {:induction false} ValidMeansConforms(v: Json, s: Schema)
    ensures Errors(v, s) == [] <==> Conforms(v, s)
    decreases s, 1
  {
    if ChecksFields(s, v) {
      MissingNone(v.fields, s.Required());
      FieldsValid(v.fields, s, |s.Props()|);
    }
  }

  lemma {:induction false} FieldsValid(fields: map<string, Json>, s: Schema, n: nat)
    requires n <= |s.Props()|
    ensures FieldErrors(fields, s, n) == [] <==>
              forall p :: p in s.Props()[..n] && p.key in fields ==> Conforms(fields[p.key], p.schema)
    decreases s, 0, n
  {
    if n == 0 {
    } else {
      var p := s.Props()[n - 1];
      FieldsValid(fields, s, n - 1);
      assert s.Props()[..n] == s.Props()[..n - 1] + [p];
      if p.key in fields {
        ValidMeansConforms(fields[p.key], p.schema);
      }
    }
  }

  /** What one reported issue says about the value. */
  ghost predicate Blames(v: Json, s: Schema, issue: Issue)
    decreases s
  {
    if !TypeAdmits(s.types, v) then issue == WrongType(TypeOf(v))
    else
      match issue
      case WrongType(_) => false
      case NotInEnum => !EnumAdmits(s, v)
      case Missing(key) => ChecksFields(s, v) && key in s.Required() && key !in v.fields
      case At(key, inner) =>
        ChecksFields(s, v) && key in v.fields && exists p :: p in s.Props() && p.key == key && Blames(v.fields[key], p.schema, inner)
  }

  lemma {:induction false} MissingAre(fields: map<string, Json>, required: seq<string>, issue: Issue)
    ensures issue in MissingOf(fields, required) <==> issue.Missing? && issue.key in required && issue.key !in fields
  {
    if required == [] {
    } else {
      MissingAre(fields, Front(required), issue);
      assert required == Front(required) + [Last(required)];
    }
  }

  lemma NestedAre(key: string, issues: seq<Issue>, issue: Issue)
    ensures issue in Nested(key, issues) <==> issue.At? && issue.key == key && issue.issue in issues
  {
    if issue.At? && issue.key == key && issue.issue in issues {
      var i :| 0 <= i < |issues| && issues[i] == issue.issue;
      assert Nested(key, issues)[i] == issue;
    }
  }

  /** Every violation is reported, and nothing else. */
  lemma {:induction false} ErrorsAreTheViolations(v: Json, s: Schema, issue: Issue)
    ensures issue in Errors(v, s) <==> Blames(v, s, issue)
    decreases s, 1
  {
    if TypeAdmits(s.types, v) && ChecksFields(s, v) {
      MissingAre(v.fields, s.Required(), issue);
      FieldErrorsAre(v.fields, s, |s.Props()|, issue);
    }
  }

  lemma {:induction false} FieldErrorsAre(fields: map<string, Json>, s: Schema, n: nat, issue: Issue)
    requires n <= |s.Props()|
    ensures issue in FieldErrors(fields, s, n) <==>
              && issue.At? && issue.key in fields
              && exists p :: p in s.Props()[..n] && p.key == issue.key && Blames(fields[issue.key], p.schema, issue.issue)
    decreases s, 0, n
  {
    if n == 0 {
    } else {
      var p := s.Props()[n - 1];
      FieldErrorsAre(fields, s, n - 1, issue);
      assert s.Props()[..n] == s.Props()[..n - 1] + [p];
      if p.key in fields {
        NestedAre(p.key, Errors(fields[p.key], p.schema), issue);
        if issue.At? && issue.key == p.key {
          ErrorsAreTheViolations(fields[p.key], p.schema, issue.issue);
        }
      }
    }
  }

  /** Which values each type keyword admits. */
  lemma TypesMean(t: TypeName, v: Json)
    ensures Conforms(v, Schema(One(t), None, None, NoProperties, NoItems, None)) <==>
              || (t == TNull && v == Null) || (t == TBoolean && v.Bool?) || (t == TNumber && v.Num?)
              || (t == TString && v.Str?) || (t == TArray && v.Arr?) || (t == TObject && v.Obj?)
  {
  }

  /**
   The other keywords alone: an enum admits the primitive values it lists, and no object or array even if it
   lists one; without a type that names objects, what is required of an object goes unchecked.
   */
  lemma KeywordsMean(vals: seq<Json>, required: seq<string>, v: Json)
    ensures Conforms(v, Schema(NoType, Some(vals), None, NoProperties, NoItems, None)) <==> v in vals && !v.Obj? && !v.Arr?
    ensures Conforms(v, Schema(NoType, None, Some(required), NoProperties, NoItems, None))
    ensures Conforms(v, Schema(One(TObject), None, Some(required), NoProperties, NoItems, None)) <==>
              v.Obj? && forall key :: key in required ==> key in v.fields
  {
  }

  method ValidateAgainstSchema(value: Json, schema: Schema) returns (valid: bool, errors: seq<Issue>)
    ensures errors == Errors(value, schema)
    ensures valid <==> Conforms(value, schema)
    decreases schema
  {
    ValidMeansConforms(value, schema);
    errors := [];
    if !TypeAdmits(schema.types, value) {
      return false, [WrongType(TypeOf(value))];
    }
    if !EnumAdmits(schema, value) {
      errors := errors + [NotInEnum];
    }
    if ChecksFields(schema, value) {
      errors := PushMissing(errors, value.fields, schema.Required());
      ghost var early := errors;
      var props := schema.Props();
      for k := 0 to |props|
        invariant errors == early + FieldErrors(value.fields, schema, k)
      {
        if props[k].key in value.fields {
          var _, nested := ValidateAgainstSchema(value.fields[props[k].key], props[k].schema);
          errors := PushNested(errors, props[k].key, nested);
        }
      }
    }
    valid := errors == [];
  }

  method PushMissing(errors: seq<Issue>, fields: map<string, Json>, required: seq<string>) returns (all: seq<Issue>)
    ensures all == errors + MissingOf(fields, required)
  {
    all := errors;
    for k := 0 to |required|
      invariant all == errors + MissingOf(fields, required[..k])
    {
      assert Front(required[..k + 1]) == required[..k];
      if required[k] !in fields {
        all := all + [Missing(required[k])];
      }
    }
    assert required[..|required|] == required;
  }

  method PushNested(errors: seq<Issue>, key: string, nested: seq<Issue>) returns (all: seq<Issue>)
    ensures all == errors + Nested(key, nested)
  {
    all := errors;
    for k := 0 to |nested|
      invariant all == errors + Nested(key, nested)[..k]
    {
      all := all + [At(key, nested[k])];
    }
  }

  // ---------------------------------------------------------------- the rewriting

  function Nullable(t: TypeKeyword): TypeKeyword {
    var types := if t.Many? then t.ts else if t.One? then [t.t] else [TAbsent];
    Many(if TNull in types then types else types + [TNull])
  }

  function StrictProperty(p: Property, strict: Schema, required: seq<string>): Property {
    Property(p.key, if p.key in required then strict else strict.(types := Nullable(strict.types)))
  }

  function Strictify(s: Schema): Schema {
    var s1 :=
      if s.types == One(TObject) then
        var props := s.Props();
        s.(properties := Properties(seq(|props|, i requires 0 <= i < |props| => StrictProperty(props[i], Strictify(props[i].schema), s.Required()))),
           required := Some(seq(|props|, i requires 0 <= i < |props| => props[i].key)),
           additionalProperties := Some(false))
      else s;
    if s.types == One(TArray) && s.items.Items? then s1.(items := Items(Strictify(s.items.schema))) else s1
  }

  method StrictifyForCodex(node: Schema) returns (schema: Schema)
    ensures schema == Strictify(node)
    decreases node
  {
    schema := node;
    if node.types == One(TObject) {
      var props, requiredBefore := node.Props(), node.Required();
      var nextProps: seq<Property>, keys: seq<string> := [], [];
      for k := 0 to |props|
        invariant |nextProps| == |keys| == k
        invariant forall i :: 0 <= i < k ==>
            nextProps[i] == StrictProperty(props[i], Strictify(props[i].schema), requiredBefore) && keys[i] == props[i].key
      {
        var strict := StrictifyForCodex(props[k].schema);
        if props[k].key !in requiredBefore {
          strict := strict.(types := Nullable(strict.types));
        }
        nextProps := nextProps + [Property(props[k].key, strict)];
        keys := keys + [props[k].key];
      }
      assert nextProps == Strictify(node).properties.list;
      assert keys == Strictify(node).required.value;
      schema := schema.(properties := Properties(nextProps), required := Some(keys), additionalProperties := Some(false));
    }
    if schema.types == One(TArray) && schema.items.Items? {
      var items := StrictifyForCodex(node.items.schema);
      schema := schema.(items := Items(items));
    }
  }

  /** A second rewriting changes nothing. */
  lemma {:induction false} StrictifyIsIdempotent(s: Schema)
    ensures Strictify(Strictify(s)) == Strictify(s)
  {
    var once := Strictify(s);
    if s.types == One(TObject) {
      var props, strict := s.Props(), once.properties.list;
      forall i | 0 <= i < |props|
        ensures StrictProperty(strict[i], Strictify(strict[i].schema), once.required.value) == strict[i]
      {
        StrictifyIsIdempotent(props[i].schema);
        assert once.required.value[i] == strict[i].key;
      }
      var twice := Strictify(once);
      assert twice.properties.list == strict;
      assert twice.required.value == once.required.value;
    } else if s.types == One(TArray) && s.items.Items? {
      StrictifyIsIdempotent(s.items.schema);
    }
  }

  // ---------------------------------------------------------------- every node of a schema

  datatype Into = IntoProperty(i: nat) | IntoItems

  predicate Has(s: Schema, into: Into) {
    match into
    case IntoProperty(i) => i < |s.Props()|
    case IntoItems => s.items.Items?
  }

  function Child(s: Schema, into: Into): (child: Schema)
    requires Has(s, into)
    ensures child < s
  {
    match into
    case IntoProperty(i) => s.Props()[i].schema
    case IntoItems => s.items.schema
  }

  /** The node at the end of a path, when the path is there. */
  function NodeAt(s: Schema, path: seq<Into>): Option<Schema> {
    if path == [] then Some(s) else if Has(s, path[0]) then NodeAt(Child(s, path[0]), path[1..]) else None
  }

  /** A path from object nodes into properties and from array nodes into items, where the types are exactly those. */
  predicate Walks(s: Schema, path: seq<Into>) {
    path != [] ==>
      && Has(s, path[0]) && s.types == One(if path[0].IntoItems? then TArray else TObject)
      && Walks(Child(s, path[0]), path[1..])
  }

  /** The path ends at a property its object does not require. */
  predicate EndsOptional(s: Schema, path: seq<Into>)
    requires Walks(s, path)
  {
    path != [] &&
      if |path| == 1 then path[0].IntoProperty? && s.Props()[path[0].i].key !in s.Required()
      else EndsOptional(Child(s, path[0]), path[1..])
  }

  function Keys(props: seq<Property>): seq<string> { seq(|props|, i requires 0 <= i < |props| => props[i].key) }

  /** What strict mode asks of a node, and what it leaves as it was. */
  ghost predicate StrictNode(before: Schema, after: Schema, optional: bool) {
    && after.enumVals == before.enumVals
    && after.types == (if optional then Nullable(before.types) else before.types)
    && (if before.types == One(TObject) then
          && after.additionalProperties == Some(false)
          && after.required == Some(Keys(before.Props()))
          && after.properties.Properties? && Keys(after.Props()) == Keys(before.Props())
        else
          after.required == before.required && after.additionalProperties == before.additionalProperties
          && after.properties == before.properties)
    && (before.types == One(TArray) && before.items.Items? ==> after.items.Items?)
    && (before.types != One(TArray) || before.items.NoItems? ==> after.items == before.items)
  }

  /** At every node that object and array nodes lead to, however deep, the rewriting did what strict mode asks. */
  lemma {:induction false} StrictAtEveryNode(s: Schema, path: seq<Into>)
    requires Walks(s, path)
    ensures NodeAt(s, path).Some? && NodeAt(Strictify(s), path).Some?
    ensures StrictNode(NodeAt(s, path).value, NodeAt(Strictify(s), path).value, EndsOptional(s, path))
    decreases |path|
  {
    var strict := Strictify(s);
    assert s.types == One(TObject) ==> Keys(strict.Props()) == Keys(s.Props()) && strict.required.value == Keys(s.Props());
    if path != [] {
      var child, below := Child(s, path[0]), Strictify(Child(s, path[0]));
      StrictAtEveryNode(child, path[1..]);
      assert Has(strict, path[0]);
      if path[0].IntoProperty? {
        var p := s.Props()[path[0].i];
        assert strict.Props()[path[0].i] == StrictProperty(p, below, s.Required());
        RetypedBelow(below, StrictProperty(p, below, s.Required()).schema.types, path[1..]);
      }
    }
  }

  /** Making a node nullable touches no node below it. */
  lemma RetypedBelow(s: Schema, types: TypeKeyword, path: seq<Into>)
    ensures NodeAt(s.(types := types), path) == if path == [] then Some(s.(types := types)) else NodeAt(s, path)
  {
    assert s.(types := types).Props() == s.Props();
  }

  // ---------------------------------------------------------------- dropping and filling nulls

  /** JavaScript objects have no key twice. */
  ghost predicate WellFormed(s: Schema)
    decreases s
  {
    UniqueKeys(s.Props()) && forall p :: p in s.Props() ==> WellFormed(p.schema)
  }

  ghost predicate UniqueKeys(props: seq<Property>) {
    forall p, q :: p in props && q in props && p.key == q.key ==> p == q
  }

  predicate Declares(s: Schema, key: string) { exists p :: p in s.Props() && p.key == key }

  function IndexOf(props: seq<Property>, key: string): (i: nat)
    requires exists p :: p in props && p.key == key
    ensures i < |props| && props[i].key == key
  {
    if props[0].key == key then 0 else
      assert exists p :: p in props[1..] && p.key == key;
      1 + IndexOf(props[1..], key)
  }

  predicate Optional(s: Schema, key: string) { Declares(s, key) && key !in s.Required() }

  /** Null at an optional key is strict mode's way of leaving the key out. */
  function DropNulls(s: Schema, v: Json): Json
    decreases s
  {
    if s.types == One(TObject) && v.Obj? then
      Obj(map key | key in v.fields && !(Optional(s, key) && v.fields[key] == Null) ::
            if Declares(s, key) then DropNulls(s.Props()[IndexOf(s.Props(), key)].schema, v.fields[key]) else v.fields[key])
    else v
  }

  function OptionalKeys(s: Schema): set<string> {
    set p | p in s.Props() && p.key !in s.Required() :: p.key
  }

  function FillNulls(s: Schema, v: Json): Json
    decreases s
  {
    if s.types == One(TObject) && v.Obj? then
      Obj(map key | key in v.fields.Keys + OptionalKeys(s) ::
            if key !in v.fields then Null
            else if Declares(s, key) then FillNulls(s.Props()[IndexOf(s.Props(), key)].schema, v.fields[key])
            else v.fields[key])
    else v
  }

  /** Every required key is also declared, so the rewriting does not forget it. */
  ghost predicate RequiredIsDeclared(s: Schema)
    decreases s
  {
    s.types == One(TObject) ==>
      && (forall key :: key in s.Required() ==> Declares(s, key))
      && (forall p :: p in s.Props() ==> RequiredIsDeclared(p.schema))
  }

  /** Required keys that are not declared happen to be there all the same. */
  ghost predicate HasUndeclared(s: Schema, v: Json)
    decreases s
  {
    s.types == One(TObject) && v.Obj? ==>
      && (forall key :: key in s.Required() && !Declares(s, key) ==> key in v.fields)
      && (forall p :: p in s.Props() && p.key in v.fields && !(Optional(s, p.key) && v.fields[p.key] == Null) ==>
            HasUndeclared(p.schema, v.fields[p.key]))
  }

  /** Optional properties carry a type, and an enum of theirs lists null. */
  ghost predicate OptionalsTyped(s: Schema)
    decreases s
  {
    s.types == One(TObject) ==>
      && (forall p :: p in s.Props() && p.key !in s.Required() ==> !p.schema.types.NoType? && EnumAdmits(p.schema, Null))
      && (forall p :: p in s.Props() ==> OptionalsTyped(p.schema))
  }

  /** The same, where this value needs it: enums at the keys it leaves out, types at those it has. */
  ghost predicate Fillable(s: Schema, v: Json)
    decreases s
  {
    s.types == One(TObject) && v.Obj? ==>
      forall p :: p in s.Props() ==>
        if p.key in v.fields then
          Fillable(p.schema, v.fields[p.key])
          && (p.key !in s.Required() && p.schema.types.NoType? ==> v.fields[p.key] == Null)
        else p.key !in s.Required() ==> EnumAdmits(p.schema, Null)
  }

  lemma IndexIs(props: seq<Property>, p: Property)
    requires UniqueKeys(props) && p in props
    ensures props[IndexOf(props, p.key)] == p
  {
  }

  /** A field of a rewritten value, when it stays, is the rewritten field. */
  lemma FieldRewritten(s: Schema, v: Json, p: Property)
    requires WellFormed(s) && s.types == One(TObject) && v.Obj? && p in s.Props() && p.key in v.fields
    ensures p.key in DropNulls(s, v).fields <==> !(Optional(s, p.key) && v.fields[p.key] == Null)
    ensures p.key in DropNulls(s, v).fields ==> DropNulls(s, v).fields[p.key] == DropNulls(p.schema, v.fields[p.key])
    ensures p.key in FillNulls(s, v).fields && FillNulls(s, v).fields[p.key] == FillNulls(p.schema, v.fields[p.key])
  {
    IndexIs(s.Props(), p);
  }

  /** What making a node nullable does to each value. */
  lemma NullableMeans(s: Schema, v: Json)
    ensures Conforms(v, s.(types := Nullable(s.types))) <==>
              if v == Null then EnumAdmits(s, Null) else !s.types.NoType? && Conforms(v, s)
  {
    var n := s.(types := Nullable(s.types));
    assert n.Props() == s.Props() && n.Required() == s.Required();
    if v != Null {
      assert TypeAdmits(n.types, v) <==> !s.types.NoType? && TypeAdmits(s.types, v);
    }
  }

  /** An object node and its strict form ask the same of an object, field by field. */
  lemma StrictObject(s: Schema, v: Json)
    requires WellFormed(s) && s.types == One(TObject) && v.Obj?
    ensures Conforms(v, Strictify(s)) <==>
              && s.enumVals.None?
              && (forall p :: p in s.Props() ==> p.key in v.fields)
              && (forall p :: p in s.Props() ==>
                    Conforms(v.fields[p.key], StrictProperty(p, Strictify(p.schema), s.Required()).schema))
  {
    var strict, props := Strictify(s), s.Props();
    assert |strict.Props()| == |props| && |strict.Required()| == |props|;
    forall p | p in props
      ensures p.key in strict.Required() && StrictProperty(p, Strictify(p.schema), s.Required()) in strict.Props()
    {
      var i :| 0 <= i < |props| && props[i] == p;
      assert strict.Required()[i] == p.key;
      assert strict.Props()[i] == StrictProperty(p, Strictify(p.schema), s.Required());
    }
    forall q | q in strict.Props()
      ensures exists p :: p in props && q == StrictProperty(p, Strictify(p.schema), s.Required())
    {
      var i :| 0 <= i < |props| && strict.Props()[i] == q;
      assert props[i] in props;
    }
    forall key | key in strict.Required() ensures exists p :: p in props && p.key == key {
      var i :| 0 <= i < |props| && strict.Required()[i] == key;
      assert props[i] in props;
    }
  }

  /** Outside object nodes the rewriting touches only `items`, which the validator never reads. */
  lemma StrictElsewhere(s: Schema, v: Json)
    ensures Strictify(s).types == s.types
    ensures s.types != One(TObject) ==> (Conforms(v, Strictify(s)) <==> Conforms(v, s))
  {
    var strict := Strictify(s);
    assert s.types != One(TObject) ==> strict.Props() == s.Props() && strict.Required() == s.Required();
  }

  // ---------------------------------------------------------------- theorems

  lemma {:induction false} DroppedField(s: Schema, v: Json, p: Property)
    requires WellFormed(s) && s.types == One(TObject) && v.Obj? && p in s.Props() && p.key in v.fields
    requires Conforms(v.fields[p.key], StrictProperty(p, Strictify(p.schema), s.Required()).schema)
    ensures p.key in DropNulls(s, v).fields ==>
              (Conforms(DropNulls(s, v).fields[p.key], p.schema) <==> HasUndeclared(p.schema, v.fields[p.key]))
    decreases s, 0
  {
    var x := v.fields[p.key];
    FieldRewritten(s, v, p);
    if p.key in DropNulls(s, v).fields {
      StrictElsewhere(p.schema, x);
      NullableMeans(Strictify(p.schema), x);
      assert Declares(s, p.key);
      DropNullsPreserves(p.schema, x);
    }
  }

  /**
   A value valid under the strict schema is valid under the original once its nulls at
   optional keys are dropped -- exactly when the required keys the original never
   declared, which the rewriting forgets, are there too.
   */
  lemma {:induction false} DropNullsPreserves(s: Schema, v: Json)
    requires WellFormed(s) && Conforms(v, Strictify(s))
    ensures Conforms(DropNulls(s, v), s) <==> HasUndeclared(s, v)
    decreases s, 1
  {
    StrictElsewhere(s, v);
    if s.types == One(TObject) {
      StrictObject(s, v);
      var fields := DropNulls(s, v).fields;
      forall p | p in s.Props()
        ensures p.key in fields <==> !(Optional(s, p.key) && v.fields[p.key] == Null)
        ensures p.key in fields ==> (Conforms(fields[p.key], p.schema) <==> HasUndeclared(p.schema, v.fields[p.key]))
      {
        FieldRewritten(s, v, p);
        DroppedField(s, v, p);
      }
      forall key | key in s.Required()
        ensures key in fields <==> Declares(s, key) || key in v.fields
      {
      }
    }
  }

  lemma {:induction false} DeclaredHasUndeclared(s: Schema, v: Json)
    requires RequiredIsDeclared(s)
    ensures HasUndeclared(s, v)
    decreases s
  {
    if s.types == One(TObject) && v.Obj? {
      forall p | p in s.Props() && p.key in v.fields ensures HasUndeclared(p.schema, v.fields[p.key]) {
        DeclaredHasUndeclared(p.schema, v.fields[p.key]);
      }
    }
  }

  lemma {:induction false} FilledField(s: Schema, v: Json, p: Property)
    requires WellFormed(s) && s.types == One(TObject) && v.Obj? && p in s.Props() && p.key in v.fields
    requires Conforms(v.fields[p.key], p.schema)
    ensures p.key in FillNulls(s, v).fields
    ensures Conforms(FillNulls(s, v).fields[p.key], StrictProperty(p, Strictify(p.schema), s.Required()).schema) <==>
              && Fillable(p.schema, v.fields[p.key])
              && (p.key !in s.Required() && p.schema.types.NoType? ==> v.fields[p.key] == Null)
    decreases s, 0
  {
    var x := v.fields[p.key];
    FieldRewritten(s, v, p);
    StrictElsewhere(p.schema, FillNulls(p.schema, x));
    NullableMeans(Strictify(p.schema), FillNulls(p.schema, x));
    FillNullsPreserves(p.schema, x);
  }

  /**
   A value valid under the original becomes valid under the strict schema once null is
   filled in at the optional keys it leaves out -- exactly when the enums there list
   null and no untyped optional key holds anything else.
   */
  lemma {:induction false} FillNullsPreserves(s: Schema, v: Json)
    requires WellFormed(s) && Conforms(v, s)
    ensures Conforms(FillNulls(s, v), Strictify(s)) <==> Fillable(s, v)
    decreases s, 1
  {
    StrictElsewhere(s, v);
    if s.types == One(TObject) {
      var filled := FillNulls(s, v);
      StrictObject(s, filled);
      forall p | p in s.Props()
        ensures p.key in filled.fields
        ensures Conforms(filled.fields[p.key], StrictProperty(p, Strictify(p.schema), s.Required()).schema) <==>
                  if p.key in v.fields then
                    Fillable(p.schema, v.fields[p.key])
                    && (p.key !in s.Required() && p.schema.types.NoType? ==> v.fields[p.key] == Null)
                  else p.key !in s.Required() ==> EnumAdmits(p.schema, Null)
      {
        if p.key in v.fields {
          FilledField(s, v, p);
        } else {
          assert p.key in OptionalKeys(s);
          NullableMeans(Strictify(p.schema), Null);
        }
      }
    }
  }

  lemma {:induction false} TypedIsFillable(s: Schema, v: Json)
    requires OptionalsTyped(s)
    ensures Fillable(s, v)
    decreases s
  {
    if s.types == One(TObject) && v.Obj? {
      forall p | p in s.Props() && p.key in v.fields ensures Fillable(p.schema, v.fields[p.key]) {
        TypedIsFillable(p.schema, v.fields[p.key]);
      }
    }
  }

  /** The two directions for schemas that declare what they require and type what they make optional. */
  lemma StrictMeansTheSame(s: Schema, v: Json)
    requires WellFormed(s) && RequiredIsDeclared(s) && OptionalsTyped(s)
    ensures Conforms(v, Strictify(s)) ==> Conforms(DropNulls(s, v), s)
    ensures Conforms(v, s) ==> Conforms(FillNulls(s, v), Strictify(s))
  {
    if Conforms(v, Strictify(s)) {
      DropNullsPreserves(s, v);
      DeclaredHasUndeclared(s, v);
    }
    if Conforms(v, s) {
      FillNullsPreserves(s, v);
      TypedIsFillable(s, v);
    }
  }

  /** On strict values, dropping and filling again is the identity: nothing else is lost. */
  lemma {:induction false} DropThenFill(s: Schema, v: Json)
    requires WellFormed(s) && Conforms(v, Strictify(s))
    ensures FillNulls(s, DropNulls(s, v)) == v
    decreases s
  {
    if s.types == One(TObject) && v.Obj? {
      StrictObject(s, v);
      var dropped := DropNulls(s, v);
      var again := FillNulls(s, dropped);
      forall key ensures key in again.fields <==> key in v.fields {
        if key in OptionalKeys(s) {
          var p :| p in s.Props() && p.key !in s.Required() && p.key == key;
          assert p.key in v.fields;
        }
      }
      forall key | key in v.fields ensures again.fields[key] == v.fields[key] {
        if Declares(s, key) {
          var p :| p in s.Props() && p.key == key;
          FieldRewritten(s, v, p);
          if key in dropped.fields {
            FieldRewritten(s, dropped, p);
            StrictElsewhere(p.schema, v.fields[key]);
            NullableMeans(Strictify(p.schema), v.fields[key]);
            DropThenFill(p.schema, v.fields[key]);
          }
        }
      }
      assert again.fields == v.fields;
    }
  }

  // What the conditions shut out: an undeclared requirement, an untyped optional, an enum without null.

  function Node(required: seq<string>, props: seq<Property>): Schema {
    Schema(One(TObject), None, Some(required), Properties(props), NoItems, None)
  }

  lemma UndeclaredRequirementIsForgotten()
    ensures var s, v := Node(["a"], []), Obj(map[]);
            Conforms(v, Strictify(s)) && !Conforms(DropNulls(s, v), s)
  {
    var s, v := Node(["a"], []), Obj(map[]);
    StrictObject(s, v);
    DropNullsPreserves(s, v);
    assert "a" in s.Required();
  }

  lemma UntypedOptionalIsRefused()
    ensures var p := Property("a", Schema(NoType, None, None, NoProperties, NoItems, None));
            var s, v := Node([], [p]), Obj(map["a" := Str("y")]);
            Conforms(v, s) && !Conforms(FillNulls(s, v), Strictify(s))
  {
    var p := Property("a", Schema(NoType, None, None, NoProperties, NoItems, None));
    var s, v := Node([], [p]), Obj(map["a" := Str("y")]);
    assert s.Props() == [p];
    FillNullsPreserves(s, v);
  }

  lemma OptionalEnumRefusesNull()
    ensures var p := Property("a", Schema(One(TString), Some([Str("x")]), None, NoProperties, NoItems, None));
            var s, v := Node([], [p]), Obj(map[]);
            Conforms(v, s) && !Conforms(FillNulls(s, v), Strictify(s))
  {
    var p := Property("a", Schema(One(TString), Some([Str("x")]), None, NoProperties, NoItems, None));
    var s, v := Node([], [p]), Obj(map[]);
    assert s.Props() == [p] && !EnumAdmits(p.schema, Null);
    FillNullsPreserves(s, v);
  }
}
