/** Toolkit concept definitions, the shape they must have and the values they admit. */
module ToolkitValues {
  import opened Wrappers
  import Domain
  import Json = JsonSchema

  datatype Kind = Area | Role | Capability | Standard | Attribute | Dimension | Descriptor

  datatype ValueType = Boolean | Integer | Number | Text | Choice | Date | Reference

  datatype Cardinality = One | Many

  datatype Verification = Proposed | Verified | Rejected | Unknown

  datatype Scale = Scale(min: real, max: real, rubric: string, version: string, anchors: map<string, string>)

  datatype Definition = Definition(
    kind: Kind, valueType: ValueType, cardinality: Cardinality, categories: seq<string>,
    allowed: Option<seq<string>>, scale: Option<Scale>, parent: Option<string>, info: string)

  predicate Numeric(t: ValueType) { t == Integer || t == Number }

  // --------------------------------------------------------------------- keys

  predicate KeyChar(c: char) {
    'a' <= c <= 'z' || 'A' <= c <= 'Z' || '0' <= c <= '9' || c in {'.', '_', '-', ':', '/'}
  }

  /** `validate_key` */
  predicate ValidKey(s: string) { 1 <= |s| <= 128 && forall c :: c in s ==> KeyChar(c) }

  /** `validate_date`: the form YYYY-MM-DD, not the calendar. */
  predicate ValidDate(s: string) {
    && |s| == 10 && s[4] == '-' && s[7] == '-'
    && forall i :: 0 <= i < 10 && i != 4 && i != 7 ==> '0' <= s[i] <= '9'
  }

  /** `validate_concept_shape`, its texts aside. */
  predicate WellShaped(key: string, d: Definition) {
    && ValidKey(key) && '.' in key
    && (forall category :: category in d.categories ==> ValidKey(category))
    && (d.parent.Some? ==> ValidKey(d.parent.value) && d.parent.value != key)
    && (if d.valueType == Choice then d.allowed.Some? && d.allowed.value != [] else d.allowed.None?)
    && (if d.kind == Dimension
        then
          && d.scale.Some? && d.scale.value.min <= d.scale.value.max
          && ValidKey(d.scale.value.rubric) && d.scale.value.anchors != map[]
          && Numeric(d.valueType)
        else d.scale.None?)
  }

  // ------------------------------------------------------------------- values

  predicate HasValue(value: Option<Json.Json>) { value.Some? && value.value != Json.Null }

  predicate InScale(d: Definition, value: Json.Json) {
    value.IsNumber() && d.scale.Some? ==> d.scale.value.min <= value.AsReal() <= d.scale.value.max
  }

  /** A value of the concept's type, within its scale and among its allowed values. */
  predicate TypeFits(d: Definition, value: Json.Json) {
    && InScale(d, value)
    && match d.valueType
       case Boolean => value.Bool?
       case Integer => value.Integer? && -Domain.I64_MAX - 1 <= value.i <= Domain.I64_MAX
       case Number => value.IsNumber()
       case Choice => value.String? && d.allowed.Some? && value.s in d.allowed.value
       case Date => value.String? && ValidDate(value.s)
       case _ => value.String?
  }

  /** `validate_assertion_value` */
  predicate ValueFits(d: Definition, value: Option<Json.Json>, state: Verification) {
    if state == Unknown then !HasValue(value) else HasValue(value) && TypeFits(d, value.value)
  }

  /** The values of a numeric concept are numbers, those of the others are not. */
  lemma NumbersOnly(d: Definition, value: Json.Json)
    requires TypeFits(d, value)
    ensures value.IsNumber() <==> Numeric(d.valueType)
  {
  }
}
