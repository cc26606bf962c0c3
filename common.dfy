/** Identifiers, request inputs, replies and error re-wrapping shared by every controller. */
module Common {

  /** A document identifier (a MongoDB ObjectId, kept opaque). */
  type Id = nat

  datatype Option<+T> = None | Some(value: T)

  /** An identifier taken from a route parameter: it either passes `isValidObjectId`
      (and then denotes `id`) or it does not. */
  datatype RawId = WellFormed(id: Id) | Malformed

  /** What a handler sends back.
      - `Ok`: a response written with `res.status(status).json(new ApiResponse(...))`;
      - `Fail`: an `ApiError(status, message)` that leaves the handler;
      - `Crash`: an exception that is not an `ApiError` (a `TypeError` on a null value)
        and leaves the handler; its HTTP status is decided by the error middleware,
        which is not part of this model. */
  datatype Reply<+T> =
    | Ok(status: nat, data: T, message: string)
    | Fail(status: nat, message: string)
    | Crash(reason: string)

  /** The `ApiError` class is not part of this model. What the handlers' catch blocks
      read from it is therefore a parameter: whether an instance exposes its code as
      `error.status`, as `error.statusCode`, and the message `new ApiError()` gets
      when it is thrown without arguments. */
  datatype ApiErrorShape = ApiErrorShape(hasStatus: bool, hasStatusCode: bool, defaultMessage: string)

  /** The property a catch block reads the code from. */
  datatype StatusProperty = StatusProp | StatusCodeProp

  /** `error.status || 500` (or `error.statusCode || 500`) for a caught `ApiError(code, ...)`. */
  function CaughtStatus(shape: ApiErrorShape, read: StatusProperty, code: nat): (s: nat)
    ensures s == code || s == 500
    ensures s == code <==> code == 500 || (code != 0 && (if read == StatusProp then shape.hasStatus else shape.hasStatusCode))
  {
    var exposed := if read == StatusProp then shape.hasStatus else shape.hasStatusCode;
    if exposed && code != 0 then code else 500
  }

  /** `catch (error) { throw new ApiError(error.<read> || 500, error.message || fallback) }`
      applied to an `ApiError(code, message)` thrown inside the `try`. */
  function Rethrow<T>(shape: ApiErrorShape, read: StatusProperty, code: nat, message: string, fallback: string): (r: Reply<T>)
    ensures r.Fail?
    ensures r.status == CaughtStatus(shape, read, code)
    ensures r.message == (if message != [] then message else fallback)
  {
    Fail(CaughtStatus(shape, read, code), if message != [] then message else fallback)
  }

  /** A point in time as a calendar date and a time of day in milliseconds. */
  datatype Instant = Instant(year: nat, month: nat, day: nat, ms: nat)

  predicate ValidInstant(t: Instant) {
    1 <= t.month <= 12 && 1 <= t.day <= 31 && t.ms < 86_400_000 && t.year <= 9999
  }

  /** Chronological order on instants (the order MongoDB compares `Date` values in). */
  predicate NotAfter(a: Instant, b: Instant) {
    a.year < b.year
    || (a.year == b.year && a.month < b.month)
    || (a.year == b.year && a.month == b.month && a.day < b.day)
    || (a.year == b.year && a.month == b.month && a.day == b.day && a.ms <= b.ms)
  }
}
