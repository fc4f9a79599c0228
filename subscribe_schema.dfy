/**
 * The schema rule of `subscribe` as the integration tests fix it
 * (package/streamsx/eventstreams/tests/test_eventstreams.py, `TestSubscribeParams`)
 * and as the consumer-group sample uses it (samples/consumerGroupParallel.py).
 * The validator itself belongs to the library and is not part of this model:
 * only the schema kinds that shown code subscribes with are modelled.
 */
module SubscribeSchema {

  /** The schemas passed to `subscribe` by the tests and the sample. */
  datatype Schema =
    | CommonString                  // CommonSchema.String
    | CommonJson                    // CommonSchema.Json
    | CommonPython                  // CommonSchema.Python
    | CommonBinary                  // CommonSchema.Binary
    | CommonXml                     // CommonSchema.XML
    | StringMessageMeta             // Schema.StringMessageMeta: message, key and broker metadata
    | UserTuple(decl: string)       // StreamSchema('tuple<...>')
    | SchemaText(text: string)      // a schema given as a raw string

  datatype SubscribeError = TypeError(rejected: Schema)

  datatype Result<T, E> = Ok(value: T) | Err(error: E)

  /** A subscribed stream: a topic read as tuples of the requested schema. */
  datatype Subscription = Subscription(topic: string, schema: Schema)

  /** Whether `subscribe` accepts a schema. */
  function Accepts(schema: Schema): (ok: bool)
    ensures schema == CommonString ==> ok
    ensures schema == CommonJson ==> ok
    ensures schema == StringMessageMeta ==> ok
    ensures schema == CommonPython ==> !ok
    ensures schema == CommonBinary ==> !ok
    ensures schema == CommonXml ==> !ok
    ensures schema.UserTuple? || schema.SchemaText? ==> !ok
  {
    match schema
    case CommonString | CommonJson | StringMessageMeta => true
    case _ => false
  }

  /** `subscribe(topology, topic, schema)` as far as the schema check goes: a
      stream of the requested schema, or a `TypeError` naming the schema. */
  function Subscribe(topic: string, schema: Schema): (r: Result<Subscription, SubscribeError>)
    ensures r.Ok? <==> Accepts(schema)
    ensures r.Ok? ==> r.value.topic == topic && r.value.schema == schema
    ensures r.Err? ==> r.error == TypeError(schema)
  {
    if Accepts(schema) then Ok(Subscription(topic, schema)) else Err(TypeError(schema))
  }

  /** `test_schemas_ok`. */
  lemma SchemasOk()
    ensures Subscribe("T1", CommonString).Ok?
    ensures Subscribe("T1", CommonJson).Ok?
  {
  }

  /** `test_schemas_bad`: each of these raises `TypeError`. */
  lemma SchemasBad()
    ensures Subscribe("T1", CommonPython) == Err(TypeError(CommonPython))
    ensures Subscribe("T1", CommonBinary) == Err(TypeError(CommonBinary))
    ensures Subscribe("T1", CommonXml) == Err(TypeError(CommonXml))
    ensures Subscribe("T1", UserTuple("tuple<int32 a>")).Err?
    ensures Subscribe("T1", SchemaText("tuple<int32 a>")).Err?
  {
  }
}
