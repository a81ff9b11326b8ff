/**
 * The `propertyToSortBy` query input: the `SortableProperties` lookup table, the
 * `@Transform` that replaces a label by its `[property, order]` tuple, and the
 * `@IsNotEmpty` check that rejects a label the table does not know.
 */
module SortFarmsInput {
  import opened Wrappers
  import opened Entities

  /** A `[property, order]` tuple. */
  type SortTuple = (string, string)

  /** The static members of `SortableProperties`, keyed by member name. */
  const SortableProperties: map<string, SortTuple> :=
    map[
      "NAME" := ("NAME", "ASC"),
      "DATE" := ("DATE", "ASC"),
      "DRIVINGDISTANCE" := ("DRIVING_DISTANCE", "ASC")
    ]

  /** The message class-validator gives for a failed `@IsNotEmpty()` on this property. */
  const NotEmptyMessage: string := "propertyToSortBy should not be empty"

  /**
   * The `@Transform`: `SortableProperties[value]`. A label that is not one of the three
   * members reads as `undefined` (`None`).
   */
  function Transform(value: string): (r: Option<SortTuple>)
    ensures r.Some? <==> value == "NAME" || value == "DATE" || value == "DRIVINGDISTANCE"
    ensures value == "NAME" ==> r == Some(("NAME", "ASC"))
    ensures value == "DATE" ==> r == Some(("DATE", "ASC"))
    ensures value == "DRIVINGDISTANCE" ==> r == Some(("DRIVING_DISTANCE", "ASC"))
    ensures r.Some? ==> r.value.1 == "ASC"
  {
    if value in SortableProperties then Some(SortableProperties[value]) else None
  }

  /** `@IsNotEmpty()`: a tuple is never empty; `undefined` is. */
  predicate IsNotEmpty(v: Option<SortTuple>)
  {
    v.Some?
  }

  /**
   * Transform, then validate: the tuple for a known label, and a BadRequest with the
   * `IsNotEmpty` message for any other label.
   */
  function ValidatePropertyToSortBy(value: string): (r: Result<SortTuple, Error>)
    ensures r.Ok? <==> value in SortableProperties.Keys
    ensures r.Ok? ==> r.value in SortableProperties.Values && r.value.1 == "ASC"
    ensures r.Ok? ==> Transform(value) == Some(r.value)
    ensures r.Err? ==> r.error == BadRequest(NotEmptyMessage)
  {
    var transformed := Transform(value);
    if IsNotEmpty(transformed) then Ok(transformed.value) else Err(BadRequest(NotEmptyMessage))
  }

  /** Distinct labels give distinct property components. */
  lemma SortablePropertiesInjective(a: string, b: string)
    requires a in SortableProperties && b in SortableProperties && a != b
    ensures SortableProperties[a].0 != SortableProperties[b].0
  {
  }

  /** The validated tuple determines the label it came from. */
  lemma ValidationInjective(a: string, b: string)
    requires ValidatePropertyToSortBy(a).Ok? && ValidatePropertyToSortBy(b).Ok?
    requires ValidatePropertyToSortBy(a).value == ValidatePropertyToSortBy(b).value
    ensures a == b
  {
    if a != b {
      SortablePropertiesInjective(a, b);
    }
  }
}
