/** Values shared by the three controllers: optional values, the HTTP outcome of an
    endpoint, and DateTime represented as .NET ticks. */
module Common {

  datatype Option<T> = None | Some(value: T)

  /** The status an endpoint answers with; message texts and headers are not modelled.
      `Created` carries the id the database assigned; the 201 body is that stored record. */
  datatype Response<T> =
    | Ok(value: T)      // 200 with a body
    | Created(id: int)  // 201 CreatedAtAction
    | NoContent         // 204
    | BadRequest        // 400
    | Conflict          // 409 (Problem with Status409Conflict)
    | NotFound          // 404
    | ServerError       // 500: an exception the action does not catch

  /** One DateTime tick is 100 ns. */
  const TicksPerMinute: int := 600_000_000
  const DayTicks: int := 864_000_000_000
  /** DateTime.MaxValue.Ticks (9999-12-31 23:59:59.9999999). */
  const MaxTicks: int := 3_155_378_975_999_999_999

  /** A DateTime value: its tick count lies in [MinValue.Ticks, MaxValue.Ticks]. */
  type Ticks = t: int | 0 <= t <= MaxTicks

  /** default(DateTime) is DateTime.MinValue, tick 0. */
  const DefaultDate: Ticks := 0

  /** DateTime.AddDays(1): fails (ArgumentOutOfRangeException) past MaxValue. */
  function AddOneDay(t: Ticks): Option<Ticks> {
    if t + DayTicks <= MaxTicks then Some(t + DayTicks) else None
  }
}
