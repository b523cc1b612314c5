/**
 * `GET /random-number`: default the bounds, reject an empty range, then let
 * the thread-local generator pick a number in the inclusive range. The
 * generator is foreign; only its promise (a value in `min..=max`) is kept,
 * as a nondeterministic choice.
 */
module RandomNumber {
  import opened Wrappers
  import opened Types

  const DefaultMin: U8 := 0
  const DefaultMax: U8 := 255
  const RangeMessage: string := "Minimum value cannot be greater than maximum value."

  /**
   * The effective bounds `(min, max)` after defaulting, or `InvalidRange`
   * when they form an empty range. Because the defaults are the extremes of
   * `u8`, only a request that gives both bounds can be rejected.
   */
  function CheckRange(params: RandomNumberParams): (r: Result<(U8, U8), Error>)
    ensures r.Failure? <==> params.min.Some? && params.max.Some? && params.min.value > params.max.value
    ensures r.Failure? ==> r.error == InvalidRange(RangeMessage)
    ensures r.Success? ==> r.value.0 <= r.value.1
    ensures r.Success? ==> r.value.0 == (if params.min.Some? then params.min.value else DefaultMin)
    ensures r.Success? ==> r.value.1 == (if params.max.Some? then params.max.value else DefaultMax)
  {
    var min := params.min.UnwrapOr(DefaultMin);
    var max := params.max.UnwrapOr(DefaultMax);
    if min > max then Failure(InvalidRange(RangeMessage)) else Success((min, max))
  }

  /** The handler: a reply carrying a number within the effective bounds, or the range error. */
  method RandomNumber(params: RandomNumberParams) returns (r: Result<Reply, Error>)
    ensures r.Failure? <==> CheckRange(params).Failure?
    ensures r.Failure? ==> r.error == InvalidRange(RangeMessage)
    ensures r.Success? ==> r.value.status == StatusOk && r.value.body.NumberJson? &&
                           CheckRange(params).value.0 <= r.value.body.number <= CheckRange(params).value.1
    ensures CheckRange(params).Success? && CheckRange(params).value.0 == CheckRange(params).value.1 ==>
              r == Success(Reply(StatusOk, NumberJson(CheckRange(params).value.0)))
  {
    match CheckRange(params)
    case Failure(e) =>
      return Failure(e);
    case Success(bounds) =>
      var (min, max) := bounds;
      var number: U8 :| min <= number <= max;
      return Success(Reply(StatusOk, NumberJson(number)));
  }
}
