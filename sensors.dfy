/**
 * Sensor specifications, the sensor error taxonomy and the store access
 * path (reading and writing one string key per sensor).
 */
module Sensors {
  import opened Wrappers
  import opened Api

  /**
   * What can go wrong when reading or updating a sensor value. The payloads
   * of the store and pool errors are only ever logged, so they are dropped.
   */
  datatype SensorError =
    | UnknownSensor(sensor: string)  // no registered sensor has this id
    | Redis                          // the store command failed
    | R2d2                           // no pooled connection became available

  /**
   * The key-value store reached through a connection pool. `data` is the
   * store's contents; `connectionAvailable` says whether a checkout from the
   * pool succeeds; a command on a key in `failingKeys` is rejected by the
   * store and has no effect.
   */
  class Store {
    var data: map<string, string>
    var connectionAvailable: bool
    var failingKeys: set<string>

    constructor (data: map<string, string>, connectionAvailable: bool, failingKeys: set<string>)
      ensures this.data == data
      ensures this.connectionAvailable == connectionAvailable
      ensures this.failingKeys == failingKeys
    {
      this.data := data;
      this.connectionAvailable := connectionAvailable;
      this.failingKeys := failingKeys;
    }

    /**
     * The result of reading `key` through the pool: a pool timeout comes
     * first, then a failing or absent key is a store error (a missing key reads
     * as nil, which does not convert to a string), else the stored string.
     */
    function Fetch(key: string): (r: Result<string, SensorError>)
      reads this
      ensures !connectionAvailable ==> r == Failure(R2d2)
      ensures r.Success? <==> connectionAvailable && key !in failingKeys && key in data
      ensures r.Success? ==> r.value == data[key]
      ensures connectionAvailable && r.Failure? ==> r.error == Redis
    {
      if !connectionAvailable then Failure(R2d2)
      else if key in failingKeys || key !in data then Failure(Redis)
      else Success(data[key])
    }

    /** The result of writing `key` through the pool (an upsert, no existence check). */
    function WriteOutcome(key: string): (r: Outcome<SensorError>)
      reads this
      ensures !connectionAvailable ==> r == Fail(R2d2)
      ensures r.Pass? <==> connectionAvailable && key !in failingKeys
      ensures connectionAvailable && r.Fail? ==> r.error == Redis
    {
      if !connectionAvailable then Fail(R2d2)
      else if key in failingKeys then Fail(Redis)
      else Pass
    }
  }

  /** A registered sensor: its template and the store key holding its value. */
  datatype SensorSpec = SensorSpec(template: SensorTemplate, dataKey: string) {

    /** Reads this sensor's raw value from the store, unchanged. */
    method GetSensorValue(pool: Store) returns (r: Result<string, SensorError>)
      ensures r == pool.Fetch(dataKey)
      ensures r.Failure? ==> !r.error.UnknownSensor?
    {
      if !pool.connectionAvailable {
        return Failure(R2d2);
      }
      if dataKey in pool.failingKeys || dataKey !in pool.data {
        return Failure(Redis);
      }
      return Success(pool.data[dataKey]);
    }

    /** Upserts this sensor's raw value in the store. */
    method SetSensorValue(pool: Store, value: string) returns (r: Outcome<SensorError>)
      modifies pool`data
      ensures r == old(pool.WriteOutcome(dataKey))
      ensures r.Fail? ==> !r.error.UnknownSensor? && pool.data == old(pool.data)
      ensures r.Pass? ==> pool.data == old(pool.data)[dataKey := value]
      ensures r.Pass? ==> pool.Fetch(dataKey) == Success(value)
    {
      if !pool.connectionAvailable {
        return Fail(R2d2);
      }
      if dataKey in pool.failingKeys {
        return Fail(Redis);
      }
      pool.data := pool.data[dataKey := value];
      return Pass;
    }
  }

  /** The read result of every sensor of a registry, in registry order. */
  function ReadAll(pool: Store, specs: seq<SensorSpec>): (results: seq<Result<string, SensorError>>)
    reads pool
  {
    seq(|specs|, i requires 0 <= i < |specs| reads pool => pool.Fetch(specs[i].dataKey))
  }
}
