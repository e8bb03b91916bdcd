/**
 * The read handler (assemble the status document from the store) and the
 * update handler (validate one sensor update and write it through), with the
 * error envelope and the status codes they answer with.
 */
module Handlers {
  import opened Wrappers
  import opened Api
  import opened Sensors
  import opened Assembly

  /** The JSON values an error envelope is built from. */
  datatype Json = JString(str: string) | JObject(members: map<string, Json>)

  /** The response status codes the handlers use. */
  datatype HttpStatus = Ok | NoContent | BadRequest | InternalServerError {
    function Code(): nat {
      match this
      case Ok => 200
      case NoContent => 204
      case BadRequest => 400
      case InternalServerError => 500
    }
  }

  /** What a response carries: nothing, an error envelope, or the status document. */
  datatype Body = NoBody | ErrorBody(json: Json) | DocumentBody(doc: Status)

  datatype Response = Response(status: HttpStatus, headers: seq<(string, string)>, body: Body)

  /** The three headers every response of both handlers carries. */
  const StandardHeaders: seq<(string, string)> := [
    ("Content-Type", "application/json; charset=utf-8"),
    ("Cache-Control", "no-cache"),
    ("Access-Control-Allow-Origin", "*")
  ]

  const ValueMissingReason := "\"value\" parameter not specified"
  const TooManyValuesReason := "Too many values specified"
  const UnknownSensorPrefix := "Unknown sensor: "
  const StoreFailedReason := "Updating values in datastore failed"

  /** The error envelope: an object with exactly the members `status` = "error" and `reason`. */
  function ErrorJson(reason: string): (j: Json)
    ensures j.JObject? && j.members.Keys == {"status", "reason"}
    ensures j.members["status"] == JString("error")
    ensures j.members["reason"] == JString(reason)
  {
    JObject(map["status" := JString("error"), "reason" := JString(reason)])
  }

  /** The success answer of an update: 204, no body. */
  function OkResponse(): (r: Response)
    ensures r.status.Code() == 204 && r.body.NoBody? && r.headers == StandardHeaders
  {
    Response(NoContent, StandardHeaders, NoBody)
  }

  /** An error answer: the given status and the envelope around `reason`. */
  function ErrResponse(status: HttpStatus, reason: string): (r: Response)
    ensures r.status == status && r.headers == StandardHeaders
    ensures r.body.ErrorBody? && r.body.json == ErrorJson(reason)
  {
    Response(status, StandardHeaders, ErrorBody(ErrorJson(reason)))
  }

  /** The reason an error answer carries; `None` for a body that is not an error envelope. */
  function ReasonOf(r: Response): Option<string> {
    if r.body.ErrorBody? && r.body.json.JObject? && "reason" in r.body.json.members
       && r.body.json.members["reason"].JString?
    then Some(r.body.json.members["reason"].str)
    else None
  }

  /**
   * The `value` form field must be given exactly once: its single value, or
   * the 400 answer for a missing field or for any other number of values.
   */
  function SingleValue(values: Option<seq<string>>): (r: Result<string, Response>)
    ensures r.Success? <==> values.Some? && |values.value| == 1
    ensures r.Success? ==> r.value == values.value[0]
    ensures r.Failure? ==> r.error.status.Code() == 400 && r.error.headers == StandardHeaders
    ensures values.None? ==> ReasonOf(r.error) == Some(ValueMissingReason)
    ensures values.Some? && |values.value| != 1 ==> ReasonOf(r.error) == Some(TooManyValuesReason)
  {
    match values
    case Some(vs) =>
      if |vs| == 1 then Success(vs[0]) else Failure(ErrResponse(BadRequest, TooManyValuesReason))
    case None => Failure(ErrResponse(BadRequest, ValueMissingReason))
  }

  /**
   * The answer to the outcome of an update: 204 on success, 400 naming the
   * sensor for an unknown one (a client fault), 500 for a store or pool
   * failure (a server fault).
   */
  function UpdateResponse(outcome: Outcome<SensorError>): (r: Response)
    ensures r.headers == StandardHeaders
    ensures r.status.Code() == 204 <==> outcome.Pass?
    ensures r.status.Code() == 400 <==> outcome.Fail? && outcome.error.UnknownSensor?
    ensures r.status.Code() == 500 <==> outcome.Fail? && (outcome.error.Redis? || outcome.error.R2d2?)
    ensures outcome.Pass? ==> r.body.NoBody?
    ensures outcome.Fail? && outcome.error.UnknownSensor? ==>
              ReasonOf(r) == Some(UnknownSensorPrefix + outcome.error.sensor)
    ensures outcome.Fail? && !outcome.error.UnknownSensor? ==> ReasonOf(r) == Some(StoreFailedReason)
  {
    match outcome
    case Pass => OkResponse()
    case Fail(UnknownSensor(sensor)) => ErrResponse(BadRequest, UnknownSensorPrefix + sensor)
    case Fail(_) => ErrResponse(InternalServerError, StoreFailedReason)
  }

  /** The position of the first registered sensor whose key is exactly `sensor`. */
  function FirstMatch(specs: seq<SensorSpec>, sensor: string): (r: Option<nat>)
    ensures r.Some? ==> r.value < |specs| && specs[r.value].dataKey == sensor
    ensures r.Some? ==> forall j :: 0 <= j < r.value ==> specs[j].dataKey != sensor
    ensures r.None? <==> forall j :: 0 <= j < |specs| ==> specs[j].dataKey != sensor
    decreases |specs|
  {
    if |specs| == 0 then None
    else if specs[0].dataKey == sensor then Some(0)
    else
      match FirstMatch(specs[1..], sensor)
      case None => None
      case Some(k) => Some(k + 1)
  }

  /** Searches the registry, front to back, for the sensor with key `sensor`. */
  method FindSpec(specs: seq<SensorSpec>, sensor: string) returns (r: Option<nat>)
    ensures r == FirstMatch(specs, sensor)
  {
    var i := 0;
    while i < |specs|
      invariant 0 <= i <= |specs|
      invariant forall j :: 0 <= j < i ==> specs[j].dataKey != sensor
    {
      if specs[i].dataKey == sensor {
        return Some(i);
      }
      i := i + 1;
    }
    return None;
  }

  /** Serves the status document: the template filled from the store, then modified. */
  class ReadHandler {
    const status: Status
    const pool: Store
    const specs: seq<SensorSpec>
    const modifiers: seq<StatusModifier>

    constructor (status: Status, pool: Store, specs: seq<SensorSpec>, modifiers: seq<StatusModifier>)
      ensures this.status == status && this.pool == pool
      ensures this.specs == specs && this.modifiers == modifiers
    {
      this.status := status;
      this.pool := pool;
      this.specs := specs;
      this.modifiers := modifiers;
    }

    /**
     * One assembly pass over a copy of the template document: the result is
     * determined by the template, the registry, the store and the modifiers.
     */
    method BuildResponse() returns (doc: Status)
      ensures doc == Assemble(status, specs, ReadAll(pool, specs), modifiers)
    {
      ghost var rs := ReadAll(pool, specs);
      doc := status;
      var i := 0;
      while i < |specs|
        invariant 0 <= i <= |specs|
        invariant doc == FillSensors(status, specs[..i], rs[..i])
      {
        var spec := specs[i];
        var value := spec.GetSensorValue(pool);
        if value.Success? {
          if doc.sensors.None? {
            doc := doc.(sensors := Some(EmptySensors));
          }
          doc := doc.(sensors := Some(spec.template(value.value, doc.sensors.value)));
        }
        assert specs[..i + 1][..i] == specs[..i] && rs[..i + 1][..i] == rs[..i];
        i := i + 1;
      }
      assert specs[..i] == specs && rs[..i] == rs;
      ghost var filled := doc;
      var j := 0;
      while j < |modifiers|
        invariant 0 <= j <= |modifiers|
        invariant doc == ApplyModifiers(filled, modifiers[..j])
      {
        doc := modifiers[j](doc);
        assert modifiers[..j + 1][..j] == modifiers[..j];
        j := j + 1;
      }
      assert modifiers[..j] == modifiers;
    }

    /** A read always answers 200 with the assembled document, whatever sensors failed. */
    method Handle() returns (r: Response)
      ensures r.status.Code() == 200 && r.headers == StandardHeaders
      ensures r.body == DocumentBody(Assemble(status, specs, ReadAll(pool, specs), modifiers))
    {
      var doc := BuildResponse();
      r := Response(Ok, StandardHeaders, DocumentBody(doc));
    }
  }

  /** Accepts updates of one sensor value and writes them through to the store. */
  class UpdateHandler {
    const pool: Store
    const specs: seq<SensorSpec>

    constructor (pool: Store, specs: seq<SensorSpec>)
      ensures this.pool == pool && this.specs == specs
    {
      this.pool := pool;
      this.specs := specs;
    }

    /**
     * Writes `value` for the sensor whose key is `sensor`; an unknown sensor
     * is reported without touching the store.
     */
    method UpdateSensor(sensor: string, value: string) returns (r: Outcome<SensorError>)
      modifies pool`data
      ensures FirstMatch(specs, sensor).None? ==>
                r == Fail(UnknownSensor(sensor)) && pool.data == old(pool.data)
      ensures FirstMatch(specs, sensor).Some? ==> r == old(pool.WriteOutcome(sensor))
      ensures r.Pass? ==> pool.data == old(pool.data)[sensor := value]
      ensures r.Fail? ==> pool.data == old(pool.data)
    {
      var found := FindSpec(specs, sensor);
      match found
      case None =>
        return Fail(UnknownSensor(sensor));
      case Some(i) =>
        r := specs[i].SetSensorValue(pool, value);
    }

    /**
     * Answers one update request for `sensor` whose form carried `values`
     * under `value` (`None` when the field is absent).
     */
    method Handle(sensor: string, values: Option<seq<string>>) returns (resp: Response)
      modifies pool`data
      ensures resp.headers == StandardHeaders
      ensures SingleValue(values).Failure? ==>
                resp == SingleValue(values).error && pool.data == old(pool.data)
      ensures SingleValue(values).Success? && FirstMatch(specs, sensor).None? ==>
                resp == UpdateResponse(Fail(UnknownSensor(sensor))) && pool.data == old(pool.data)
      ensures SingleValue(values).Success? && FirstMatch(specs, sensor).Some? ==>
                resp == UpdateResponse(old(pool.WriteOutcome(sensor)))
      ensures resp.status.Code() == 204 ==>
                values.Some? && |values.value| == 1 &&
                pool.data == old(pool.data)[sensor := values.value[0]] &&
                pool.Fetch(sensor) == Success(values.value[0])
      ensures resp.status.Code() != 204 ==> pool.data == old(pool.data)
    {
      var value := SingleValue(values);
      if value.Failure? {
        return value.error;
      }
      var outcome := UpdateSensor(sensor, value.value);
      resp := UpdateResponse(outcome);
    }
  }
}
