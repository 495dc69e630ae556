/** The producer's side of the remote call (`grpc.TelemetryClient.SendReading`): convert the
    reading to its wire form, make one call, and turn the call's result into an `error`.
    The call itself is the parameter `rpc`: whatever the transport returned for that request. */
module Client {
  import opened GoInts
  import opened Results
  import opened Models
  import opened Wire
  import DataSource
  import TelemetryService

  /** A connection failure or timeout reported by the transport. */
  datatype TransportError = TransportError(detail: string)

  type RpcResult = Result<Response, TransportError>

  /** The error `SendReading` returns, wrapping the transport's. */
  datatype SendError = SendFailed(cause: TransportError) {
    function Message(): string {
      "failed to send reading: " + cause.detail
    }
  }

  /** The wire form of a reading: the name as is, the value narrowed by Go's `int32(...)`, and the
      timestamp cut to the whole second it falls in. */
  function ToWire(reading: SensorReading): (w: WireReading)
    ensures w.sensorName == reading.sensorName
    ensures (reading.value - w.value) % TwoTo32 == 0
    ensures MinInt32 <= reading.value <= MaxInt32 ==> w.value == reading.value
    ensures w.timestamp * NanosPerSecond <= EpochNanos(reading.timestamp) < (w.timestamp + 1) * NanosPerSecond
  {
    WireReading(reading.sensorName, ToInt32(reading.value), Unix(reading.timestamp))
  }

  /** What the collector reconstructs from the wire: the instant loses its sub-second part and
      nothing else; the name and an in-range value come back unchanged. */
  lemma WireTimestampTruncates(reading: SensorReading)
    ensures FromUnix(ToWire(reading).timestamp) == Timestamp(reading.timestamp.seconds, 0)
    ensures FromUnix(ToWire(reading).timestamp) == reading.timestamp <==> reading.timestamp.nanos == 0
  {
  }

  /** Every reading the generator makes fits in 32 bits, so its value crosses the wire intact. */
  lemma GeneratedValueLossless(ds: DataSource.SensorDataSource, r: int, now: Timestamp)
    requires DataSource.ValidDraw(ds.sensorName, r)
    ensures ToWire(DataSource.GetReading(ds, r, now)).value == DataSource.GetReading(ds, r, now).value
  {
  }

  /** `SendReading`: an error exactly when the transport failed; a reply from the collector,
      even one reporting failure, is not an error (it is only logged as a warning). */
  function SendReading(reading: SensorReading, rpc: WireReading -> RpcResult): (r: Outcome<SendError>)
    ensures r.Fail? <==> rpc(ToWire(reading)).Err?
    ensures r.Fail? ==> r.error.cause == rpc(ToWire(reading)).error
  {
    match rpc(ToWire(reading))
    case Err(e) => Fail(SendFailed(e))
    case Ok(_) => Pass
  }

  /** A collector's rejection does not surface as an error at the producer. */
  lemma SinkRejectionIsNotAnError(reading: SensorReading, message: string)
    ensures SendReading(reading, _ => Ok(Response(false, message))) == Pass
  {
  }

  /** The collector, reached without a transport failure. */
  function Sink(w: WireReading): RpcResult {
    Ok(TelemetryService.ProcessReading(Some(w)).response)
  }

  /** End to end: a reading generated after the epoch by a named source, sent to the collector,
      is accepted, and the collector sees the generated name and value unchanged. */
  lemma GeneratedReadingAccepted(ds: DataSource.SensorDataSource, r: int, now: Timestamp)
    requires DataSource.ValidDraw(ds.sensorName, r)
    requires ds.sensorName != "" && now.seconds > 0
    ensures SendReading(DataSource.GetReading(ds, r, now), Sink) == Pass
    ensures TelemetryService.ProcessReading(Some(ToWire(DataSource.GetReading(ds, r, now)))).response.success
    ensures ToWire(DataSource.GetReading(ds, r, now)).sensorName == ds.sensorName
    ensures ToWire(DataSource.GetReading(ds, r, now)).value == DataSource.GetReading(ds, r, now).value
  {
  }

  /** A reading stamped at or before the epoch reaches the collector but is rejected there;
      the producer still reports no error. */
  lemma PreEpochReadingRejectedSilently(reading: SensorReading)
    requires reading.sensorName != "" && reading.timestamp.seconds <= 0
    ensures !TelemetryService.ProcessReading(Some(ToWire(reading))).response.success
    ensures SendReading(reading, Sink) == Pass
  {
  }
}
