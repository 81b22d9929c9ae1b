/** `ChartDataService` (src/app/services/chart-data.service.ts and its older copy
    src/app/chart-data.service.ts, which behave the same apart from logging): which
    HTTP responses get their timestamps shifted, and how. */
module ChartData {
  import opened Wrappers
  import opened Timestamps

  /** A response element: `time` plus every other property, which `{...d, time}` copies. */
  datatype Timed<T> = Timed(time: int, rest: T)

  /** The object form of a response, `{data: [...], ...}`. Its `data` property is
      `None` when missing or falsy; `other` stands for its remaining properties. */
  class Body<T> {
    var data: Option<seq<Timed<T>>>
    var other: map<string, string>

    constructor (data: Option<seq<Timed<T>>>, other: map<string, string>)
      ensures this.data == data && this.other == other
    {
      this.data := data;
      this.other := other;
    }
  }

  /** A decoded HTTP response: a bare JSON array, or an object. */
  datatype Response<T> = Bare(items: seq<Timed<T>>) | Object(body: Body<T>)

  /** `data.map(d => ({...d, time: d.time + offset}))`. */
  function Shifted<T>(items: seq<Timed<T>>, offset: int): (r: seq<Timed<T>>)
    ensures |r| == |items|
    ensures forall i :: 0 <= i < |r| ==> r[i].time == items[i].time + offset && r[i].rest == items[i].rest
  {
    if items == [] then [] else [items[0].(time := items[0].time + offset)] + Shifted(items[1..], offset)
  }

  /** Shifting twice shifts by the sum, so the adjustment is not idempotent. */
  lemma {:induction false} ShiftedTwice<T>(items: seq<Timed<T>>, a: int, b: int)
    ensures Shifted(Shifted(items, a), b) == Shifted(items, a + b)
  {
    if items != [] {
      ShiftedTwice(items[1..], a, b);
      assert Shifted(items, a)[1..] == Shifted(items[1..], a);
    }
  }

  lemma ShiftedNotIdempotent<T>(items: seq<Timed<T>>, offset: int)
    requires items != [] && offset != 0
    ensures Shifted(Shifted(items, offset), offset) != Shifted(items, offset)
  {
    ShiftedTwice(items, offset, offset);
    assert Shifted(items, offset + offset)[0].time != Shifted(items, offset)[0].time;
  }

  /** Shifting back by the same offset restores the payload. */
  lemma ShiftedInverse<T>(items: seq<Timed<T>>, offset: int)
    ensures Shifted(Shifted(items, offset), -offset) == items
  {
    ShiftedTwice(items, offset, -offset);
    assert Shifted(items, 0) == items;
  }

  /** Strictly ascending times (as the chart widget requires) stay strictly ascending. */
  lemma ShiftedKeepsAscending<T>(items: seq<Timed<T>>, offset: int)
    requires forall i :: 0 <= i < |items| - 1 ==> items[i].time < items[i + 1].time
    ensures forall i :: 0 <= i < |items| - 1 ==> Shifted(items, offset)[i].time < Shifted(items, offset)[i + 1].time
  {
  }

  /** The error `data.map` raises when `data` is an object without a truthy `data`. */
  datatype TypeError = MapIsNotAFunction

  /** `adjustTimestamps(data)`: with a truthy `data.data`, that property is replaced
      in place by the shifted list and the same object is returned; a bare array is
      mapped to a new array; any other object makes `data.map` throw. The offset is
      `getCurrentUtcOffsetInSeconds()`. */
  method AdjustTimestamps<T>(response: Response<T>, timezoneOffsetMinutes: int)
    returns (r: Result<Response<T>, TypeError>)
    modifies if response.Object? then {response.body} else {}
    ensures response.Bare? ==> r == Success(Bare(Shifted(response.items, UtcOffsetSeconds(timezoneOffsetMinutes))))
    ensures response.Object? && old(response.body.data).Some? ==>
      && r == Success(response)
      && response.body.data == Some(Shifted(old(response.body.data).value, UtcOffsetSeconds(timezoneOffsetMinutes)))
      && response.body.other == old(response.body.other)
    ensures response.Object? && old(response.body.data).None? ==>
      r == Failure(MapIsNotAFunction) && unchanged(response.body)
  {
    var currentUtcOffset := UtcOffsetSeconds(timezoneOffsetMinutes);
    match response
    case Object(body) =>
      if body.data.Some? {
        body.data := Some(Shifted(body.data.value, currentUtcOffset));
        r := Success(response);
      } else {
        r := Failure(MapIsNotAFunction);
      }
    case Bare(items) =>
      r := Success(Bare(Shifted(items, currentUtcOffset)));
  }

  /** The service's getters. */
  datatype Endpoint = ChartDumps | Confidence | Confidences | ModelBars | Prediction

  /** Only `getModelBars` and `getPrediction` pipe the response through `adjustTimestamps`. */
  predicate AdjustsTimestamps(e: Endpoint)
  {
    e == ModelBars || e == Prediction
  }

  /** What a getter's observable delivers for one HTTP response. */
  method Deliver<T>(e: Endpoint, response: Response<T>, timezoneOffsetMinutes: int)
    returns (r: Result<Response<T>, TypeError>)
    modifies if response.Object? then {response.body} else {}
    ensures !AdjustsTimestamps(e) ==> r == Success(response) && unchanged(if response.Object? then {response.body} else {})
    ensures AdjustsTimestamps(e) && response.Bare? ==>
      r == Success(Bare(Shifted(response.items, UtcOffsetSeconds(timezoneOffsetMinutes))))
    ensures AdjustsTimestamps(e) && response.Object? ==>
      response.body.other == old(response.body.other) &&
      if old(response.body.data).Some? then
        r == Success(response) && response.body.data == Some(Shifted(old(response.body.data).value, UtcOffsetSeconds(timezoneOffsetMinutes)))
      else r.Failure? && response.body.data == old(response.body.data)
  {
    if AdjustsTimestamps(e) {
      r := AdjustTimestamps(response, timezoneOffsetMinutes);
    } else {
      r := Success(response);
    }
  }
}
