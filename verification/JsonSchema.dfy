/** The bounded schema checker run when a fact schema is registered, and the value
    checker run on every asserted fact. */
module JsonSchema {
  import opened Wrappers

  datatype Json =
    | Null
    | Bool(b: bool)
    | Integer(i: int)
    | Float(r: real)
    | String(s: string)
    | Array(items: seq<Json>)
    | Object(fields: Fields)
  {
    predicate IsNumber() { Integer? || Float? }

    function AsReal(): real
      requires IsNumber()
    {
      if Integer? then i as real else r
    }
  }

  datatype Field = Field(name: string, value: Json)

  type Fields = seq<Field>

  function Get(fields: Fields, key: string): (r: Option<Json>)
    ensures r.Some? <==> exists f :: f in fields && f.name == key
    ensures r.Some? ==> Field(key, r.value) in fields
  {
    if fields == [] then None
    else
      assert fields == [fields[0]] + fields[1..];
      if fields[0].name == key then Some(fields[0].value) else Get(fields[1..], key)
  }

  predicate HasKey(fields: Fields, key: string) { Get(fields, key).Some? }

  /** The string a schema keyword holds. */
  function Text(fields: Fields, key: string): Option<string> {
    match Get(fields, key) case Some(String(s)) => Some(s) case _ => None
  }

  function Unsigned(fields: Fields, key: string): Option<int> {
    match Get(fields, key) case Some(Integer(i)) => if i >= 0 then Some(i) else None case _ => None
  }

  function Items(fields: Fields, key: string): Option<seq<Json>> {
    match Get(fields, key) case Some(Array(items)) => Some(items) case _ => None
  }

  function Members(fields: Fields, key: string): Option<Fields> {
    match Get(fields, key) case Some(Object(members)) => Some(members) case _ => None
  }

  function Number(fields: Fields, key: string): Option<real> {
    match Get(fields, key) case Some(v) => if v.IsNumber() then Some(v.AsReal()) else None case None => None
  }

  // ---------------------------------------------------------------- schemas

  const MAX_DEPTH: nat := 4
  const MAX_NODES: nat := 256

  function Allowed(kind: string): set<string> {
    match kind
    case "object" => {"type", "description", "properties", "required", "additionalProperties"}
    case "array" => {"type", "description", "items", "maxItems"}
    case "string" => {"type", "description", "maxLength", "enum"}
    case "integer" => {"type", "description", "minimum", "maximum"}
    case "number" => {"type", "description", "minimum", "maximum"}
    case _ => {"type", "description"}
  }

  const KINDS := {"object", "array", "string", "integer", "number", "boolean", "null"}

  /** A keyword bound that is present is a number. */
  predicate BoundOk(fields: Fields, key: string) {
    HasKey(fields, key) ==> Number(fields, key).Some?
  }

  /** What the checker demands of one node, its children aside. */
  predicate NodeShape(schema: Json, root: bool) {
    && schema.Object?
    && Text(schema.fields, "type").Some?
    && var kind := Text(schema.fields, "type").value;
    && (root ==> kind == "object")
    && kind in KINDS
    && (forall f :: f in schema.fields ==> f.name in Allowed(kind))
    && (kind == "object" ==>
          && Get(schema.fields, "additionalProperties") == Some(Bool(false))
          && Members(schema.fields, "properties").Some?
          && |Members(schema.fields, "properties").value| <= 64
          && Items(schema.fields, "required").Some?
          && |Items(schema.fields, "required").value| <= |Members(schema.fields, "properties").value|
          && (forall name :: name in Items(schema.fields, "required").value ==>
                name.String? && HasKey(Members(schema.fields, "properties").value, name.s)))
    && (kind == "array" ==>
          && Unsigned(schema.fields, "maxItems").Some?
          && Unsigned(schema.fields, "maxItems").value <= 128
          && HasKey(schema.fields, "items"))
    && (kind == "string" ==>
          && Unsigned(schema.fields, "maxLength").Some?
          && Unsigned(schema.fields, "maxLength").value <= 4096
          && (HasKey(schema.fields, "enum") ==>
                && Items(schema.fields, "enum").Some?
                && 1 <= |Items(schema.fields, "enum").value| <= 128
                && forall v :: v in Items(schema.fields, "enum").value ==> v.String?))
    && (kind == "integer" || kind == "number" ==>
          BoundOk(schema.fields, "minimum") && BoundOk(schema.fields, "maximum"))
  }

  /** The nodes directly below a schema node. */
  function Children(schema: Json): (children: seq<Json>)
    ensures Below(children, schema)
  {
    if !schema.Object? then []
    else
      match Text(schema.fields, "type")
      case Some("object") =>
        (match Members(schema.fields, "properties")
         case Some(members) => seq(|members|, i requires 0 <= i < |members| => members[i].value)
         case None => [])
      case Some("array") =>
        (match Get(schema.fields, "items") case Some(item) => [item] case None => [])
      case _ => []
  }

  predicate WellFormed(schema: Json, depth: nat, root: bool)
    decreases schema, 1, 0
  {
    depth <= MAX_DEPTH && NodeShape(schema, root) && AllWellFormed(Children(schema), schema, depth + 1)
  }

  ghost predicate Below(children: seq<Json>, parent: Json) {
    forall k :: 0 <= k < |children| ==> children[k] < parent
  }

  /** Some children of a node are well formed. */
  predicate AllWellFormed(children: seq<Json>, ghost parent: Json, depth: nat)
    requires Below(children, parent)
    decreases parent, 0, |children|
  {
    children != [] ==>
      AllWellFormed(children[..|children| - 1], parent, depth) && WellFormed(children[|children| - 1], depth, false)
  }

  /** The node and everything below it. */
  function Count(schema: Json): nat
    decreases schema, 1, 0
  {
    1 + CountAll(Children(schema), schema)
  }

  /** What some children of a node hold. */
  function CountAll(children: seq<Json>, ghost parent: Json): nat
    requires Below(children, parent)
    decreases parent, 0, |children|
  {
    if children == [] then 0
    else CountAll(children[..|children| - 1], parent) + Count(children[|children| - 1])
  }

  /** Well-formed children within the node limit. */
  predicate AllFit(children: seq<Json>, ghost parent: Json, depth: nat, nodes: nat)
    requires Below(children, parent)
  {
    AllWellFormed(children, parent, depth) && nodes + CountAll(children, parent) <= MAX_NODES
  }

  lemma FitNext(children: seq<Json>, parent: Json, depth: nat, n: nat)
    requires n < |children| && Below(children, parent)
    ensures CountAll(children[..n + 1], parent) == CountAll(children[..n], parent) + Count(children[n])
    ensures AllWellFormed(children[..n + 1], parent, depth) <==>
              AllWellFormed(children[..n], parent, depth) && WellFormed(children[n], depth, false)
  {
    assert children[..n + 1][..n] == children[..n];
  }

  lemma {:induction false} FitPrefix(children: seq<Json>, parent: Json, depth: nat, nodes: nat, n: nat)
    requires n <= |children| && Below(children, parent) && AllFit(children, parent, depth, nodes)
    ensures AllFit(children[..n], parent, depth, nodes)
  {
    if n < |children| {
      var m := |children| - 1;
      assert children[..m + 1] == children;
      FitNext(children, parent, depth, m);
      FitPrefix(children[..m], parent, depth, nodes, n);
      assert children[..m][..n] == children[..n];
    } else {
      assert children[..n] == children;
    }
  }

  lemma {:induction false} EachWellFormed(children: seq<Json>, parent: Json, depth: nat, k: nat)
    requires k < |children| && Below(children, parent) && AllWellFormed(children, parent, depth)
    ensures WellFormed(children[k], depth, false)
  {
    if k + 1 < |children| {
      EachWellFormed(children[..|children| - 1], parent, depth, k);
    }
  }

  /** A child that is refused, or that does not leave the count within the limit, is
      enough to refuse its parent. */
  lemma ChildRefused(children: seq<Json>, parent: Json, depth: nat, nodes: nat, i: nat)
    requires i < |children| && Below(children, parent)
    requires !(WellFormed(children[i], depth, false) &&
              nodes + CountAll(children[..i], parent) + Count(children[i]) <= MAX_NODES)
    ensures !AllFit(children, parent, depth, nodes)
  {
    if AllFit(children, parent, depth, nodes) {
      FitPrefix(children, parent, depth, nodes, i + 1);
      FitNext(children, parent, depth, i);
    }
  }

  /** One schema node and everything below it, with the node counter threaded through.
      A schema is accepted exactly when it is well formed and small enough. */
  method ValidateSchemaNode(schema: Json, depth: nat, root: bool, nodes: nat) returns (ok: bool, total: nat)
    ensures ok <==> WellFormed(schema, depth, root) && nodes + Count(schema) <= MAX_NODES
    ensures ok ==> total == nodes + Count(schema)
    decreases schema
  {
    total := nodes;
    if depth > MAX_DEPTH { return false, total; }
    total := total + 1;
    if total > MAX_NODES { return false, total; }
    if !NodeShape(schema, root) { return false, total; }
    ok, total := ValidateChildren(Children(schema), schema, depth, total);
  }

  /** The loop over the properties of an object node or the one `items` node. */
  method ValidateChildren(children: seq<Json>, ghost parent: Json, depth: nat, nodes: nat)
    returns (ok: bool, total: nat)
    requires nodes <= MAX_NODES && Below(children, parent)
    ensures ok <==> AllFit(children, parent, depth + 1, nodes)
    ensures ok ==> total == nodes + CountAll(children, parent)
    decreases parent, 0
  {
    total := nodes;
    for i := 0 to |children|
      invariant total == nodes + CountAll(children[..i], parent)
      invariant AllFit(children[..i], parent, depth + 1, nodes)
    {
      FitNext(children, parent, depth + 1, i);
      ok, total := ValidateSchemaNode(children[i], depth + 1, false, total);
      if !ok {
        ChildRefused(children, parent, depth + 1, nodes, i);
        return false, total;
      }
    }
    assert children[..|children|] == children;
    return true, total;
  }

  // ----------------------------------------------------------------- values

  /** `Mismatch` is the client's fault; `Corrupt` stands for the stored-schema errors,
      `MissingKey` for indexing an absent keyword, `TooDeep` for the depth bail and
      `Unsupported` for the last match arm. */
  datatype Outcome = Accepted | Mismatch | Corrupt | MissingKey | TooDeep | Unsupported

  function InRange(number: real, schema: Fields): bool {
    && (Number(schema, "minimum").Some? ==> number >= Number(schema, "minimum").value)
    && (Number(schema, "maximum").Some? ==> number <= Number(schema, "maximum").value)
  }

  /** The first required name missing from the value, or a bad entry in the list. */
  function CheckRequired(required: seq<Json>, value: Fields): Outcome {
    if required == [] then Accepted
    else if !required[0].String? then Corrupt
    else if !HasKey(value, required[0].s) then Mismatch
    else CheckRequired(required[1..], value)
  }

  function ValidateValue(value: Json, schema: Json, depth: nat): Outcome
    decreases value, 1
  {
    if depth > MAX_DEPTH then TooDeep
    else if !schema.Object? then Corrupt
    else if !HasKey(schema.fields, "type") then MissingKey
    else if Text(schema.fields, "type").None? then Corrupt
    else
      var kind := Text(schema.fields, "type").value;
      if kind == "object" then
        if !value.Object? then Mismatch
        else if !HasKey(schema.fields, "properties") then MissingKey
        else if Members(schema.fields, "properties").None? then Corrupt
        else
          var properties := Members(schema.fields, "properties").value;
          if exists f :: f in value.fields && !HasKey(properties, f.name) then Mismatch
          else if !HasKey(schema.fields, "required") then MissingKey
          else if Items(schema.fields, "required").None? then Corrupt
          else
            var required := CheckRequired(Items(schema.fields, "required").value, value.fields);
            if required != Accepted then required
            else ValidateFields(value.fields, properties, depth + 1)
      else if kind == "array" then
        if !value.Array? then Mismatch
        else if !HasKey(schema.fields, "maxItems") then MissingKey
        else if Unsigned(schema.fields, "maxItems").None? then Corrupt
        else if |value.items| > Unsigned(schema.fields, "maxItems").value then Mismatch
        else if value.items == [] then Accepted
        else if !HasKey(schema.fields, "items") then MissingKey
        else ValidateItems(value.items, Get(schema.fields, "items").value, depth + 1)
      else if kind == "string" then
        if !value.String? then Mismatch
        else if !HasKey(schema.fields, "maxLength") then MissingKey
        else if Unsigned(schema.fields, "maxLength").None? then Corrupt
        else if |value.s| > Unsigned(schema.fields, "maxLength").value then Mismatch
        else if Items(schema.fields, "enum").Some? && value !in Items(schema.fields, "enum").value then Mismatch
        else Accepted
      else if kind == "integer" && !value.Integer? then Mismatch
      else if kind == "number" && !value.IsNumber() then Mismatch
      else if kind == "boolean" && !value.Bool? then Mismatch
      else if kind == "null" && value != Null then Mismatch
      else if kind == "integer" || kind == "number" then
        if InRange(value.AsReal(), schema.fields) then Accepted else Mismatch
      else Unsupported
  }

  function ValidateItems(items: seq<Json>, schema: Json, depth: nat): Outcome
    decreases items, 0
  {
    if items == [] then Accepted
    else
      var first := ValidateValue(items[0], schema, depth);
      if first != Accepted then first else ValidateItems(items[1..], schema, depth)
  }

  function ValidateFields(fields: Fields, properties: Fields, depth: nat): Outcome
    decreases fields, 0
  {
    if fields == [] then Accepted
    else if !HasKey(properties, fields[0].name) then MissingKey
    else
      var first := ValidateValue(fields[0].value, Get(properties, fields[0].name).value, depth);
      if first != Accepted then first else ValidateFields(fields[1..], properties, depth)
  }

  // ----------------------------------------------- the declarative reading

  /** What a schema says about a value, in the words of the JSON Schema keywords. */
  predicate Conforms(value: Json, schema: Json)
    decreases value, 1
  {
    && schema.Object?
    && match Text(schema.fields, "type")
       case Some("object") =>
         && value.Object?
         && Members(schema.fields, "properties").Some?
         && Items(schema.fields, "required").Some?
         && (forall f :: f in value.fields ==> FieldConforms(f, Members(schema.fields, "properties").value))
         && (forall name :: name in Items(schema.fields, "required").value && name.String? ==>
             HasKey(value.fields, name.s))
       case Some("array") =>
         && value.Array?
         && Unsigned(schema.fields, "maxItems").Some?
         && |value.items| <= Unsigned(schema.fields, "maxItems").value
         && (match Get(schema.fields, "items")
             case Some(item) => forall v :: v in value.items ==> Conforms(v, item)
             case None => false)
       case Some("string") =>
         && value.String?
         && Unsigned(schema.fields, "maxLength").Some?
         && |value.s| <= Unsigned(schema.fields, "maxLength").value
         && (Items(schema.fields, "enum").Some? ==> value in Items(schema.fields, "enum").value)
       case Some("integer") => value.Integer? && InRange(value.AsReal(), schema.fields)
       case Some("number") => value.IsNumber() && InRange(value.AsReal(), schema.fields)
       case Some("boolean") => value.Bool?
       case Some("null") => value == Null
       case _ => false
  }

  predicate FieldConforms(f: Field, properties: Fields)
    decreases f, 0
  {
    HasKey(properties, f.name) && Conforms(f.value, Get(properties, f.name).value)
  }

  /** No part of the value is governed by a boolean or null node of the schema. */
  predicate AvoidsBooleanAndNull(value: Json, schema: Json)
    decreases value, 1
  {
    schema.Object? ==>
      match Text(schema.fields, "type")
      case Some("object") =>
        value.Object? && Members(schema.fields, "properties").Some? ==>
          (forall f :: f in value.fields ==> FieldAvoids(f, Members(schema.fields, "properties").value))
      case Some("array") =>
        value.Array? ==>
          (match Get(schema.fields, "items")
           case Some(item) => forall v :: v in value.items ==> AvoidsBooleanAndNull(v, item)
           case None => true)
      case Some(kind) => kind != "boolean" && kind != "null"
      case None => true
  }

  predicate FieldAvoids(f: Field, properties: Fields)
    decreases f, 0
  {
    HasKey(properties, f.name) ==> AvoidsBooleanAndNull(f.value, Get(properties, f.name).value)
  }

  /** Neither the stored-schema errors, nor a missing index, nor the depth bail. */
  predicate Clean(outcome: Outcome) {
    outcome == Accepted || outcome == Mismatch || outcome == Unsupported
  }

  /** What the agreement theorem says of one value under one schema node. */
  ghost predicate Agrees(value: Json, schema: Json, outcome: Outcome) {
    && Clean(outcome)
    && (outcome == Accepted <==> Conforms(value, schema) && AvoidsBooleanAndNull(value, schema))
    && (outcome == Unsupported ==> !AvoidsBooleanAndNull(value, schema))
  }

  ghost predicate ItemsAgree(items: seq<Json>, schema: Json, outcome: Outcome) {
    && Clean(outcome)
    && (outcome == Accepted <==> forall v :: v in items ==> Conforms(v, schema) && AvoidsBooleanAndNull(v, schema))
    && (outcome == Unsupported ==> exists v :: v in items && !AvoidsBooleanAndNull(v, schema))
  }

  predicate AllConform(fields: Fields, properties: Fields) {
    fields != [] ==> FieldConforms(fields[0], properties) && AllConform(fields[1..], properties)
  }

  predicate AllAvoid(fields: Fields, properties: Fields) {
    fields != [] ==> FieldAvoids(fields[0], properties) && AllAvoid(fields[1..], properties)
  }

  lemma {:induction false} AllMeansEvery(fields: Fields, properties: Fields)
    ensures AllConform(fields, properties) <==> forall f :: f in fields ==> FieldConforms(f, properties)
    ensures AllAvoid(fields, properties) <==> forall f :: f in fields ==> FieldAvoids(f, properties)
  {
    if fields != [] {
      AllMeansEvery(fields[1..], properties);
      assert fields[0] in fields;
      assert forall f :: f in fields[1..] ==> f in fields;
      assert forall f :: f in fields ==> f == fields[0] || f in fields[1..];
      assert AllConform(fields[1..], properties) <==> forall f :: f in fields[1..] ==> FieldConforms(f, properties);
    }
  }

  ghost predicate FieldsAgree(fields: Fields, properties: Fields, outcome: Outcome) {
    && Clean(outcome)
    && (outcome == Accepted <==> AllConform(fields, properties) && AllAvoid(fields, properties))
    && (outcome == Unsupported ==> !AllAvoid(fields, properties))
  }

  lemma {:induction false} RequiredAgrees(required: seq<Json>, value: Fields)
    requires forall name :: name in required ==> name.String?
    ensures CheckRequired(required, value) == Accepted || CheckRequired(required, value) == Mismatch
    ensures CheckRequired(required, value) == Accepted <==> forall name :: name in required ==> HasKey(value, name.s)
  {
    if required != [] {
      assert required == [required[0]] + required[1..];
      RequiredAgrees(required[1..], value);
    }
  }

  lemma {:induction false} ItemsAgreement(items: seq<Json>, schema: Json, depth: nat)
    requires WellFormed(schema, depth, false)
    ensures ItemsAgree(items, schema, ValidateItems(items, schema, depth))
    decreases items, 0
  {
    if items != [] {
      assert items == [items[0]] + items[1..];
      SchemaAgreement(items[0], schema, depth, false);
      ItemsAgreement(items[1..], schema, depth);
    }
  }

  /** The declared properties of an object node. */
  function Properties(schema: Json): Fields
    requires NodeShape(schema, false) && Text(schema.fields, "type") == Some("object")
  {
    Members(schema.fields, "properties").value
  }

  lemma PropertyWellFormed(schema: Json, depth: nat, root: bool, name: string)
    requires WellFormed(schema, depth, root) && Text(schema.fields, "type") == Some("object")
    requires HasKey(Properties(schema), name)
    ensures WellFormed(Get(Properties(schema), name).value, depth + 1, false)
  {
    var sub := Get(Properties(schema), name).value;
    var i :| 0 <= i < |Properties(schema)| && Properties(schema)[i] == Field(name, sub);
    assert Children(schema)[i] == sub;
    EachWellFormed(Children(schema), schema, depth + 1, i);
  }

  lemma FieldsStep(fields: Fields, properties: Fields, depth: nat)
    requires fields != [] && HasKey(properties, fields[0].name)
    requires Agrees(fields[0].value, Get(properties, fields[0].name).value,
                    ValidateValue(fields[0].value, Get(properties, fields[0].name).value, depth))
    requires FieldsAgree(fields[1..], properties, ValidateFields(fields[1..], properties, depth))
    ensures FieldsAgree(fields, properties, ValidateFields(fields, properties, depth))
  {
  }

  lemma {:induction false} FieldsAgreement(fields: Fields, schema: Json, depth: nat, root: bool)
    requires WellFormed(schema, depth, root) && Text(schema.fields, "type") == Some("object")
    requires forall f :: f in fields ==> HasKey(Properties(schema), f.name)
    ensures FieldsAgree(fields, Properties(schema), ValidateFields(fields, Properties(schema), depth + 1))
    decreases fields, 0
  {
    if fields != [] {
      assert forall f :: f in fields <==> f == fields[0] || f in fields[1..];
      PropertyWellFormed(schema, depth, root, fields[0].name);
      SchemaAgreement(fields[0].value, Get(Properties(schema), fields[0].name).value, depth + 1, false);
      FieldsAgreement(fields[1..], schema, depth, root);
      FieldsStep(fields, Properties(schema), depth + 1);
    }
  }

  lemma ObjectAgreement(value: Json, schema: Json, properties: Fields, required: seq<Json>, depth: nat)
    requires depth <= MAX_DEPTH && schema.Object? && Text(schema.fields, "type") == Some("object") && value.Object?
    requires Members(schema.fields, "properties") == Some(properties) &&
              Items(schema.fields, "required") == Some(required)
    requires forall name :: name in required ==> name.String?
    requires forall f :: f in value.fields ==> HasKey(properties, f.name)
    requires FieldsAgree(value.fields, properties, ValidateFields(value.fields, properties, depth + 1))
    ensures Agrees(value, schema, ValidateValue(value, schema, depth))
  {
    RequiredAgrees(required, value.fields);
    AllMeansEvery(value.fields, properties);
  }

  lemma ArrayAgreement(value: Json, schema: Json, item: Json, depth: nat)
    requires depth <= MAX_DEPTH && NodeShape(schema, false) && Text(schema.fields, "type") == Some("array") &&
              value.Array?
    requires Get(schema.fields, "items") == Some(item)
    requires ItemsAgree(value.items, item, ValidateItems(value.items, item, depth + 1))
    ensures Agrees(value, schema, ValidateValue(value, schema, depth))
  {
  }

  /** A schema the checker accepted never makes the value checker fail on the schema
      itself, and a value is accepted exactly when it conforms and no part of it falls
      under a boolean or null node: those parts always end in the last match arm. */
  lemma {:induction false} SchemaAgreement(value: Json, schema: Json, depth: nat, root: bool)
    requires WellFormed(schema, depth, root)
    ensures Agrees(value, schema, ValidateValue(value, schema, depth))
    decreases value, 1
  {
    var kind := Text(schema.fields, "type").value;
    if kind == "object" {
      if value.Object? && forall f :: f in value.fields ==> HasKey(Members(schema.fields, "properties").value, f.name) {
        FieldsAgreement(value.fields, schema, depth, root);
        ObjectAgreement(value, schema, Properties(schema), Items(schema.fields, "required").value, depth);
      }
    } else if kind == "array" {
      if value.Array? {
        EachWellFormed(Children(schema), schema, depth + 1, 0);
        ItemsAgreement(value.items, Get(schema.fields, "items").value, depth + 1);
        ArrayAgreement(value, schema, Get(schema.fields, "items").value, depth);
      }
    }
  }

  /** A schema may declare a boolean or null property, but no object that has it is ever
      accepted. */
  lemma BooleanPropertyRefused(value: Json, schema: Json, name: string)
    requires WellFormed(schema, 0, true) && value.Object? && HasKey(value.fields, name)
    requires HasKey(Members(schema.fields, "properties").value, name)
    requires
      var node := Get(Members(schema.fields, "properties").value, name).value;
      node.Object? && (Text(node.fields, "type") == Some("boolean") || Text(node.fields, "type") == Some("null"))
    ensures ValidateValue(value, schema, 0) != Accepted
  {
    SchemaAgreement(value, schema, 0, true);
    var f := Field(name, Get(value.fields, name).value);
    assert f in value.fields && !FieldAvoids(f, Members(schema.fields, "properties").value);
  }

  /** A boolean or null node accepts nothing, so a value can conform and be refused. */
  lemma BooleanNodesAcceptNothing(value: Json, schema: Json, depth: nat)
    requires WellFormed(schema, depth, false)
    requires Text(schema.fields, "type") == Some("boolean") || Text(schema.fields, "type") == Some("null")
    ensures ValidateValue(value, schema, depth) != Accepted
    ensures Text(schema.fields, "type") == Some("boolean") ==> Conforms(Bool(true), schema)
    ensures Text(schema.fields, "type") == Some("null") ==> Conforms(Null, schema)
  {
  }
}
