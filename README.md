# Sensor read/write path of a SpaceAPI status server

This project models the core of a SpaceAPI status server in Dafny. The server publishes a
hackerspace's status document, filled with live sensor readings from a key-value store (Redis
behind an r2d2 connection pool). It also accepts updates of single sensor values.

The model covers three pieces:

- **Store access** (`sensors.dfy`, module `Sensors`). Each `SensorSpec` is a template plus the
  store key (`dataKey`) that holds its raw string value. The store is the class `Store`, which has
  three fields. `data` is the store's contents. `connectionAvailable` says whether a pool checkout
  succeeds. `failingKeys` lists the keys whose store command fails. `GetSensorValue` and
  `SetSensorValue` follow the source's early returns: no connection gives `R2d2`, a failing
  command gives `Redis`, otherwise the value is read, or upserted.
- **Read path** (`assembly.dfy` for the specification, `ReadHandler` in `handlers.dfy` for the
  loop). A copy of the template document is filled by walking the registry in order. A failed
  read is skipped. The first successful read allocates the `sensors` section when it is absent.
  Each success hands the section to the sensor's template. After that, the modifiers run in
  order. `BuildResponse` is proved equal to `Assemble`. The lemmas in `Assembly` say what
  `Assemble` means: best-effort omission, lazy allocation, registry order, and sequential
  modifier composition.
- **Write path** (`UpdateHandler` in `handlers.dfy`). The `value` field must hold exactly one
  value. The sensor is looked up by exact key match (`FindSpec`). The value is written through.
  Each outcome maps to 204, 400 or 500 with a fixed reason in the error envelope
  `{"status": "error", "reason": …}`. A validation failure or an unknown sensor leaves the store
  unchanged.

Templates (`(string, Sensors) -> Sensors`) and modifiers (`Status -> Status`) are arbitrary total
functions, so nothing is assumed about them. The document's static part is an opaque map.

Two behaviours of the code are easy to miss:

- A `value` field that is present with zero values is answered with the reason
  "Too many values specified". Only a missing field gets "\"value\" parameter not specified".
- Reading a key that is not in the store is a store error (`Redis`). The store returns nil, and
  nil does not convert to a string.

## Model

| member | source | states |
|---|---|---|
| `Sensors.Store.Fetch` | src/sensors.rs:48-52 | no pooled connection gives `R2d2` before any key is looked at; a read succeeds iff the connection is there and the key exists and does not fail, and then returns exactly the stored string; every other failure is `Redis`, never `UnknownSensor` |
| `Sensors.Store.WriteOutcome` | src/sensors.rs:55-59 | a write fails with `R2d2` without a connection, with `Redis` when the key's command fails, and succeeds otherwise (upsert, no existence check) |
| `Sensors.SensorSpec.GetSensorValue` | src/sensors.rs:48-52 | the read through the pool returns the store's answer for the spec's own key, and never `UnknownSensor` |
| `Sensors.SensorSpec.SetSensorValue` | src/sensors.rs:55-59 | a successful write maps `dataKey` to the value and leaves every other key as it was; a failed one changes nothing and is never `UnknownSensor`; after a successful write, reading the same key returns the written value unchanged |
| `Assembly.Step` | src/server/handlers.rs:64-85 | definition of one loop iteration (skip a failed read; otherwise create the section if absent and apply the template); what it means is stated by `Assembly.FailedSensorOmitted` and `Assembly.FillSensorsIsTemplateChain` |
| `Assembly.FillSensors` | src/server/handlers.rs:62-87 | definition of the sensor loop; what it means is stated by `Assembly.FillSensorsAppend`, `Assembly.FailedSensorOmitted`, `Assembly.FillSensorsIsTemplateChain`, `Assembly.SectionPresentIff` and `Assembly.NoSuccessKeepsDocument` |
| `Assembly.ApplyModifiers` | src/server/handlers.rs:89-91 | definition of the modifier loop; what it means is stated by `Assembly.ApplyModifiersAppend`, `Assembly.ModifiersRunInOrder` and `Assembly.FirstModifierSeesAssembled` |
| `Assembly.Assemble` | src/server/handlers.rs:59-91 | definition of the whole pass (sensor loop on the template, then the modifiers); what it means is stated by the `Assembly.FillSensors` and `Assembly.ApplyModifiers` lemmas above, and `Handlers.ReadHandler.BuildResponse` is proved equal to it |
| `Assembly.SuccessIndices` | src/server/handlers.rs:62-75 | every listed position is that of a successful read |
| `Assembly.SuccessIndicesExact` | src/server/handlers.rs:62-75 | the listed positions are exactly the successful reads, each once, in strictly increasing (registry) order |
| `Assembly.FillSensorsAppend` | src/server/handlers.rs:62-87 | the sensor loop over a registry equals the loop over its first part followed by the loop over the rest |
| `Assembly.FailedSensorOmitted` | src/server/handlers.rs:78-85 | a sensor whose read fails contributes nothing: the pass gives the same document as a pass over the registry without that sensor |
| `Assembly.FillPrefixIsTemplateChain` | src/server/handlers.rs:62-75 | after the first `m` sensors, the document is unchanged if none of them was read; otherwise only its section changed, to the present (or a fresh empty) section passed through the templates of the successful sensors in order |
| `Assembly.FillSensorsIsTemplateChain` | src/server/handlers.rs:59-75 | the whole pass: if no read succeeds, the document is the template's; otherwise the section is allocated at most once (only when absent), an existing section is reused and never reset, and each successful sensor's template is applied exactly once, in registry order |
| `Assembly.SectionPresentIff` | src/server/handlers.rs:68-74 | the section is present after the pass iff it was present in the template or at least one read succeeded |
| `Assembly.NoSuccessKeepsDocument` | src/server/handlers.rs:62-87 | when every read fails, the document (its `sensors` included, e.g. still absent) equals the template's |
| `Assembly.ApplyModifiersAppend` | src/server/handlers.rs:89-91 | running a modifier chain is running its first part and then the rest on that output |
| `Assembly.ModifiersRunInOrder` | src/server/handlers.rs:89-91 | with modifiers M1 then M2 the document is M2(M1(assembled)) |
| `Assembly.FirstModifierSeesAssembled` | src/server/handlers.rs:89-91 | the first modifier receives the assembled document and the remaining modifiers run on its output |
| `Handlers.ErrorJson` | src/server/handlers.rs:27-31 | the error envelope is an object with exactly the two members `status` = "error" and `reason` = the given reason |
| `Handlers.OkResponse` | src/server/handlers.rs:150-156 | the update success answer is 204 with no body and the three standard headers |
| `Handlers.ErrResponse` | src/server/handlers.rs:159-166 | an error answer has the given status, the three standard headers and the error envelope of the reason as body |
| `Handlers.SingleValue` | src/server/handlers.rs:190-196 | the value is accepted iff the field is present with exactly one value, and then it is that value; a missing field is 400 "\"value\" parameter not specified"; any other count, zero included, is 400 "Too many values specified" |
| `Handlers.UpdateResponse` | src/server/handlers.rs:200-212 | 204 with no body iff the update succeeded; 400 "Unknown sensor: <id>" iff the sensor is unknown; 500 "Updating values in datastore failed" iff the store or pool failed |
| `Handlers.FirstMatch` | src/server/handlers.rs:141-143 | the position of the first registered sensor whose key equals the id exactly, or none iff no key equals it |
| `Handlers.FindSpec` | src/server/handlers.rs:141-143 | the front-to-back search of the registry finds exactly `FirstMatch` |
| `Handlers.ReadHandler.constructor` | src/server/handlers.rs:43-54 | the handler keeps the template, the pool, the registry and the modifier chain it is given |
| `Handlers.ReadHandler.BuildResponse` | src/server/handlers.rs:56-97 | the document is `Assemble` of the template, the registry, the store's read results and the modifiers; the template (a constant field) is not changed, so two passes over the same store give equal documents |
| `Handlers.ReadHandler.Handle` | src/server/handlers.rs:103-118 | a read always answers 200 with the standard headers and the assembled document, whatever sensors failed |
| `Handlers.UpdateHandler.constructor` | src/server/handlers.rs:130-136 | the handler keeps the pool and the registry it is given |
| `Handlers.UpdateHandler.UpdateSensor` | src/server/handlers.rs:139-147 | an id no key matches gives `UnknownSensor(id)` and no write; otherwise the result is that of writing the matched key; the store changes only on success, by exactly that key |
| `Handlers.UpdateHandler.Handle` | src/server/handlers.rs:173-213 | a validation failure or an unknown sensor answers 400 and leaves the store unchanged; otherwise the answer is that of the write's outcome; every answer carries the standard headers; a 204 means the store now maps the id to the value and a read of it returns the value |

## Left out

- The Iron framework: building responses and encoding headers. A response is modelled as a status, the list of three headers and a body.
- Extracting the `sensor` path parameter and the url-encoded body, and the `unwrap`s on them. The update handler receives the id and an `Option<seq<string>>` of values.
- Serialising the document with serde_json, and the `expect` on that call. The read answer carries the document value. The error envelope is a JSON value, not its text.
- Redis and r2d2 internals: connections, pool cloning and checkout timeouts as timing. The store is a map with a connection flag and a per-key failure set. The error payloads (`RedisError`, `GetTimeout`) are dropped, because they are only logged.
- Concurrency (`Arc` sharing, concurrent requests). A read pass sees one fixed store state. The model does not capture writes by other requests landing between two sensor reads.
- Concrete sensor templates, status modifiers and the `api::Status` schema. These are not part of this model. Templates and modifiers are arbitrary functions, and the static document is an opaque map.
- Logging (`info!`, `warn!`, `debug!`, `error!`). It is a side channel.
- `examples/simple.rs`. It only bootstraps the server.
- `Sensors.SensorSpec.SetSensorValue`: a `Redis` failure is modelled as a command the store rejected with no effect, so a failed write leaves `data` unchanged. A SET that ran but whose reply was lost (an I/O error after the command was executed) is not modelled. In the program, that write lands and the caller still sees `Redis`.
- `Handlers.UpdateHandler.UpdateSensor`: its "a failed write changes nothing" clause rests on the same reading of `Redis`. It is certain only for `R2d2`, where no connection was checked out, and for a rejected command.
- `Handlers.UpdateHandler.Handle`: likewise, a 500 answer is modelled as "nothing was written". A lost reply to an executed SET would give a 500 after the key was written. The 400 answers never write, with no such caveat.
