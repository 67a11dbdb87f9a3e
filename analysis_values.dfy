/** PartitionValue and PositionValue: immutable value objects whose constructors refuse a
    null or empty key or value and store the numbers unchanged. The statsdb-api and the
    older qc packages hold identical copies; one definition serves both. */
module AnalysisValues {
  import opened Wrappers

  /** A measurement over the positions [position, position + size). */
  datatype PartitionValue = PartitionValue(position: int, size: int, key: string, value: string)

  /** A measurement at one position. */
  datatype PositionValue = PositionValue(position: int, key: string, value: string)

  /** Neither null nor "". */
  predicate Present(s: JString) {
    s.Some? && s.value != ""
  }

  /** new PartitionValue(position, size, key, value): the key is checked first, then the
      value; position and size are not checked at all. */
  function NewPartitionValue(position: int, size: int, key: JString, value: JString): (r: Result<PartitionValue>)
    ensures r.Ok? <==> Present(key) && Present(value)
    ensures !Present(key) ==> r == Err(NullOrEmptyKey)
    ensures Present(key) && !Present(value) ==> r == Err(NullOrEmptyValue)
    ensures r.Ok? ==> r.value.position == position && r.value.size == size
    ensures r.Ok? ==> r.value.key == key.value && r.value.value == value.value
  {
    if !Present(key) then Err(NullOrEmptyKey)
    else if !Present(value) then Err(NullOrEmptyValue)
    else Ok(PartitionValue(position, size, key.value, value.value))
  }

  /** new PositionValue(position, key, value): the same checks, in the same order. */
  function NewPositionValue(position: int, key: JString, value: JString): (r: Result<PositionValue>)
    ensures r.Ok? <==> Present(key) && Present(value)
    ensures !Present(key) ==> r == Err(NullOrEmptyKey)
    ensures Present(key) && !Present(value) ==> r == Err(NullOrEmptyValue)
    ensures r.Ok? ==> r.value.position == position
    ensures r.Ok? ==> r.value.key == key.value && r.value.value == value.value
  {
    if !Present(key) then Err(NullOrEmptyKey)
    else if !Present(value) then Err(NullOrEmptyValue)
    else Ok(PositionValue(position, key.value, value.value))
  }
}
