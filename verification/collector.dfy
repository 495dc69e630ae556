/** The collector's business logic (`service.TelemetryService`): validate an inbound reading,
    first failing rule wins, and answer with a success/failure envelope. The gRPC handler passes
    requests straight through, so this is the whole of the collector's decision logic. */
module TelemetryService {
  import opened Results
  import opened Wire

  /** The three rules of `validateReading`, each with the text of its error. */
  datatype ValidationError = ReadingNil | SensorNameRequired | InvalidTimestamp {
    function Message(): string {
      match this
      case ReadingNil => "reading is nil"
      case SensorNameRequired => "sensor name is required"
      case InvalidTimestamp => "invalid timestamp"
    }
  }

  /** The validator accepts a present reading with a name and a timestamp after the epoch. */
  predicate Acceptable(reading: Option<WireReading>) {
    reading.Some? && reading.value.sensorName != "" && reading.value.timestamp > 0
  }

  /** `validateReading`: nil, then the name, then the timestamp; the value is never looked at.
      It fails exactly on the readings that are not acceptable. */
  function ValidateReading(reading: Option<WireReading>): (r: Outcome<ValidationError>)
    ensures r.Pass? <==> Acceptable(reading)
  {
    if reading.None? then Fail(ReadingNil)
    else if reading.value.sensorName == "" then Fail(SensorNameRequired)
    else if reading.value.timestamp <= 0 then Fail(InvalidTimestamp)
    else Pass
  }

  const InvalidPrefix: string := "Invalid reading: "
  const ProcessedMessage: string := "Reading processed successfully"

  /** Go's two results of `ProcessReading`: the envelope and an `error`. */
  datatype Reply = Reply(response: Response, err: Option<string>)

  /** `ProcessReading`: never a Go error; the envelope's success flag is the validator's verdict,
      and a rejection names the rule that failed. */
  function ProcessReading(reading: Option<WireReading>): (r: Reply)
    ensures r.err.None?
    ensures r.response.success <==> Acceptable(reading)
  {
    match ValidateReading(reading)
    case Fail(e) => Reply(Response(false, InvalidPrefix + e.Message()), None)
    case Pass => Reply(Response(true, ProcessedMessage), None)
  }

  /** What a caller can learn from an envelope: `None` for an acceptance, the failed rule for
      a rejection, and `Some(None)` for an envelope this collector never sends. */
  function DecodeEnvelope(resp: Response): Option<Option<ValidationError>> {
    if resp == Response(true, ProcessedMessage) then Some(None)
    else if resp == Response(false, InvalidPrefix + ReadingNil.Message()) then Some(Some(ReadingNil))
    else if resp == Response(false, InvalidPrefix + SensorNameRequired.Message()) then Some(Some(SensorNameRequired))
    else if resp == Response(false, InvalidPrefix + InvalidTimestamp.Message()) then Some(Some(InvalidTimestamp))
    else None
  }

  /** The envelope loses nothing: it decodes back to the validator's verdict, so each rule has
      its own message and an acceptance is told apart from every rejection. */
  lemma EnvelopeRoundTrip(reading: Option<WireReading>)
    ensures DecodeEnvelope(ProcessReading(reading).response) ==
              Some(match ValidateReading(reading) case Pass => None case Fail(e) => Some(e))
  {
    var r := ProcessReading(reading).response;
    match ValidateReading(reading)
    case Pass =>
    case Fail(e) =>
      assert r.message[17] == e.Message()[0];
      assert r.message[18] == e.Message()[1];
  }

  /** The first failing rule is the one reported: nil first, then the name, then the timestamp,
      which fails for every value up to and including 0. */
  lemma FirstFailingRuleReported(reading: Option<WireReading>)
    ensures ValidateReading(reading) == Fail(ReadingNil) <==> reading.None?
    ensures ValidateReading(reading) == Fail(SensorNameRequired) <==>
              reading.Some? && reading.value.sensorName == ""
    ensures ValidateReading(reading) == Fail(InvalidTimestamp) <==>
              reading.Some? && reading.value.sensorName != "" && reading.value.timestamp <= 0
  {
  }

  /** A missing name is reported even when the timestamp is also bad: the name rule is first. */
  lemma NameCheckedBeforeTimestamp(w: WireReading)
    requires w.sensorName == ""
    ensures ValidateReading(Some(w)) == Fail(SensorNameRequired)
    ensures ProcessReading(Some(w)).response == Response(false, "Invalid reading: sensor name is required")
  {
    assert InvalidPrefix + SensorNameRequired.Message() == "Invalid reading: sensor name is required";
  }

  /** The timestamp rule is strict: 0 is rejected and 1 accepted. */
  lemma TimestampBoundary(name: string, value: GoInts.Int32)
    requires name != ""
    ensures ValidateReading(Some(WireReading(name, value, 0))) == Fail(InvalidTimestamp)
    ensures ValidateReading(Some(WireReading(name, value, 1))) == Pass
  {
  }

  /** The value is never inspected: replacing it changes neither verdict nor envelope. */
  lemma ValueIgnored(w: WireReading, v: GoInts.Int32)
    ensures ProcessReading(Some(w.(value := v))) == ProcessReading(Some(w))
  {
  }

  /** A nil request is rejected with the nil rule. */
  lemma NilRejected()
    ensures ProcessReading(None).response == Response(false, "Invalid reading: reading is nil")
  {
    assert InvalidPrefix + ReadingNil.Message() == "Invalid reading: reading is nil";
  }
}
