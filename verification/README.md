# Sensor telemetry pipeline — a Dafny model

This project models the decision logic of a small telemetry pipeline. A sensor node generates synthetic readings at a configured rate and sends each one over a gRPC call to a telemetry sink. The sink validates each reading and answers with a `{success, message}` envelope.

What is modelled, one Dafny module per source component:

- `DataSource` (`Sensor_node/pkg/datasource/sensor_data.go`): the reading generator. A case-insensitive keyword match on the sensor name picks one of six value ranges. Rules are tried in the order temperature, humidity, pressure, cpu, voltage, generic, and the first match wins. The value `rand.Intn` returns is an input `r`, and the clock reading is an input `now`.
- `Text`: `strings.ToLower` and `strings.Contains`, the two library calls the generator depends on.
- `TelemetryService` (`Telemetry_sink/internal/service/telemetry.go`): the three-rule validator and the response envelope.
- `SensorConfig` (`Sensor_node/internal/config/config.go`): the checks `LoadFromCLI` runs once the flags are parsed. `Decimal` models the `%d` rendering inside the rate error.
- `Client` (`Sensor_node/pkg/grpc/client.go`): the reading-to-wire conversion, and the mapping of the call's result to an `error`. The gRPC call is a parameter `rpc` that returns the transport's answer.
- `Producer` (`Sensor_node/cmd/sensor/main.go`): the tick period derived from the rate, plus the loop as a state machine over a sequence of tick and signal events.
- `Models`, `Wire`, `GoInts` and `Results` hold the shared types:
  - the reading and its `(seconds, nanos)` timestamp;
  - the protobuf messages;
  - Go's 32- and 64-bit integers, `int32(...)` narrowing and truncating division;
  - `Option`/`Result`/`Outcome`.

Facts the model brings out:

- A configuration with `rate` above 1 000 000 000 passes `LoadFromCLI`. Its tick period `time.Second / rate` is then 0, and `time.NewTicker` panics on a non-positive period. `Producer.Start` models that panic as `Err(TickerPanic(..))`, and `Producer.OversizedRatePanics` exhibits it.
- The sink accepts every reading whose name is non-empty and whose timestamp is positive. `ProcessReading` never returns a Go error.
- A rejection by the sink is not an error at the producer: only a transport failure is. The loop keeps ticking after any failed send.
- Readings made before 1970-01-01T00:00:01Z reach the sink with a wire timestamp of 0 or less. The sink rejects them, and the producer still reports no error.

The sink keeps no file log. `NewTelemetryService` (Telemetry_sink/internal/service/telemetry.go:17) takes only a logger, and the sink `Config` (Telemetry_sink/internal/config/config.go:11-13) has no log-file path, although Telemetry_sink/internal/server/server.go:46 passes one. So no log write is modelled.

## Model

| member | source | states |
|---|---|---|
| `Text.Lower` | Sensor_node/pkg/datasource/sensor_data.go:60 | the lowered text has the same length, each character lowered, and no upper-case ASCII letter left; a character lowers to ASCII exactly when it is ASCII, U+0130 or U+212A |
| `Text.Contains` | Sensor_node/pkg/datasource/sensor_data.go:62 | the substring scan answers true exactly when the keyword occurs at some position of the text; the empty keyword occurs everywhere |
| `Text.ContainsTransitive` | Sensor_node/pkg/datasource/sensor_data.go:59-67 | containment is transitive, which is what makes a long keyword redundant next to its short prefix |
| `DataSource.ContainsAny` | Sensor_node/pkg/datasource/sensor_data.go:59-67 | true exactly when some keyword occurs in the lower-cased text; an empty keyword list gives false |
| `DataSource.ContainsAnyIgnoresCase` | Sensor_node/pkg/datasource/sensor_data.go:60 | the verdict does not depend on the letter case of the text |
| `DataSource.ClassifyIsFirstMatchingRule` | Sensor_node/pkg/datasource/sensor_data.go:36-55 | the branch taken is the earliest rule of the priority list the name matches, and the default exactly when it matches none |
| `DataSource.CpuTempIsTemperature` | Sensor_node/pkg/datasource/sensor_data.go:36-39 | a name with both "cpu" and "temp" (in upper case) takes the temperature branch |
| `DataSource.DottedCapitalICompletesKeyword` | Sensor_node/pkg/datasource/sensor_data.go:40-60 | "HUMİD-PRESS" lowers to "humid-press" and takes the humidity branch, not the pressure one |
| `DataSource.TemperatureWins` | Sensor_node/pkg/datasource/sensor_data.go:37-39 | any name containing "temp" in any case is a temperature sensor whatever else it contains, with values in [-10, 50] |
| `DataSource.UnmatchedNameIsGeneric` | Sensor_node/pkg/datasource/sensor_data.go:52-54 | a name matching no keyword takes the default branch, with values in [0, 100] |
| `DataSource.GenerateMockValue` | Sensor_node/pkg/datasource/sensor_data.go:34-56 | each branch's value lies in that category's documented range: [-10,50], [0,100], [980,1050], [0,100], [0,120], [0,100] |
| `DataSource.DrawFor` | Sensor_node/pkg/datasource/sensor_data.go:37-54 | maps each value of the category's range to a draw that `rand.Intn(n)` can return on that branch |
| `DataSource.DrawValueBijection` | Sensor_node/pkg/datasource/sensor_data.go:37-54 | draws and values correspond one to one, so every value of the range is reachable and a uniform draw gives a uniform value |
| `DataSource.LongKeywordsRedundant` | Sensor_node/pkg/datasource/sensor_data.go:37-51 | testing only "temp", "press", "volt" decides the same as testing both keywords of each pair |
| `DataSource.GetReading` | Sensor_node/pkg/datasource/sensor_data.go:23-31 | a reading carries the source's name, the supplied time, and a value in [-10, 1050] within the name's category range |
| `DataSource.ReadingKeepsConstructionName` | Sensor_node/pkg/datasource/sensor_data.go:16-31 | readings from a constructed source carry the construction name unchanged and fit in 32 bits |
| `TelemetryService.ValidateReading` | Telemetry_sink/internal/service/telemetry.go:68-83 | validation passes exactly for a present reading with a non-empty name and a positive timestamp |
| `TelemetryService.FirstFailingRuleReported` | Telemetry_sink/internal/service/telemetry.go:68-83 | the nil error exactly for a nil reading; the name error exactly for a present reading with an empty name; the timestamp error exactly for a named reading with timestamp 0 or less |
| `TelemetryService.NameCheckedBeforeTimestamp` | Telemetry_sink/internal/service/telemetry.go:73-79 | an empty name is reported as the name error even when the timestamp is also invalid |
| `TelemetryService.TimestampBoundary` | Telemetry_sink/internal/service/telemetry.go:77-79 | timestamp 0 is rejected and timestamp 1 accepted |
| `TelemetryService.ValueIgnored` | Telemetry_sink/internal/service/telemetry.go:68-83 | any 32-bit value gives the same verdict and envelope |
| `TelemetryService.NilRejected` | Telemetry_sink/internal/service/telemetry.go:69-71 | a nil request gets "Invalid reading: reading is nil" |
| `TelemetryService.ProcessReading` | Telemetry_sink/internal/service/telemetry.go:24-65 | the returned error is always nil, and success holds exactly when validation passes |
| `TelemetryService.EnvelopeRoundTrip` | Telemetry_sink/internal/service/telemetry.go:26-64 | the envelope decodes back to the validator's verdict: "Reading processed successfully" on success, "Invalid reading: " plus the failed rule's own message otherwise |
| `SensorConfig.LoadFromCli` | Sensor_node/internal/config/config.go:27-40 | success exactly when rate > 0, name and sink address are non-empty, returning the parsed fields unchanged; a non-positive rate is reported with its value |
| `SensorConfig.FirstFailureReported` | Sensor_node/internal/config/config.go:27-38 | the name error only when the rate is fine, the address error only when rate and name are fine |
| `SensorConfig.DefaultsRejected` | Sensor_node/internal/config/config.go:20-30 | with every flag at its default the rate check fails, reporting "got 0" |
| `SensorConfig.BindAddressUnchecked` | Sensor_node/internal/config/config.go:23-40 | the bind address, ":0" or anything else, never changes the verdict |
| `SensorConfig.MessageIdentifiesError` | Sensor_node/internal/config/config.go:28-38 | distinct configuration errors have distinct messages, including the rejected rate value |
| `Decimal.FormatIntRoundTrip` | Sensor_node/internal/config/config.go:29 | the `%d` rendering of the rejected rate reads back as the same integer |
| `GoInts.ToInt32` | Sensor_node/pkg/grpc/client.go:42 | `int32(x)` is the 32-bit value congruent to x modulo 2^32, and x itself when x is in range |
| `GoInts.Int32CongruenceUnique` | Sensor_node/pkg/grpc/client.go:42 | that congruent 32-bit value is unique |
| `Models.Unix` | Sensor_node/pkg/grpc/client.go:43 | `Unix()` is the whole second containing the instant, rounding down |
| `Client.ToWire` | Sensor_node/pkg/grpc/client.go:40-44 | the wire name equals the reading's, the value is its 32-bit narrowing (equal when in range), the timestamp the whole second it falls in |
| `Client.WireTimestampTruncates` | Sensor_node/pkg/grpc/client.go:43 | the sink's rebuilt instant drops exactly the sub-second part, and equals the original only when there was none |
| `Client.GeneratedValueLossless` | Sensor_node/pkg/grpc/client.go:42 | a generated value crosses the wire unchanged |
| `Client.SendReading` | Sensor_node/pkg/grpc/client.go:38-62 | an error is returned exactly when the transport fails, and it wraps that failure |
| `Client.SinkRejectionIsNotAnError` | Sensor_node/pkg/grpc/client.go:57-61 | a reply with success false still gives no error |
| `Client.GeneratedReadingAccepted` | Sensor_node/pkg/grpc/client.go:38-62 | a named reading generated at or after 1970-01-01T00:00:01Z and sent to the sink is accepted, with name and value unchanged |
| `Client.PreEpochReadingRejectedSilently` | Sensor_node/pkg/grpc/client.go:57-61 | a reading made before 1970-01-01T00:00:01Z is rejected by the sink, yet the producer reports no error |
| `Producer.TickInterval` | Sensor_node/cmd/sensor/main.go:43 | for a positive rate the period is the largest number of nanoseconds that fits rate times into one second |
| `Producer.IntervalPositiveIff` | Sensor_node/cmd/sensor/main.go:43 | the period is positive exactly for rates 1 to 1 000 000 000 |
| `Producer.TwoPerSecond` | Sensor_node/cmd/sensor/main.go:43 | rate 2 gives 500 000 000 ns |
| `Producer.Start` | Sensor_node/cmd/sensor/main.go:40-46 | under a validated configuration the division is defined; startup succeeds exactly when rate <= 1 000 000 000, with the configured name and the period `time.Second / rate`; otherwise the ticker panics with that period |
| `Producer.OversizedRatePanics` | Sensor_node/cmd/sensor/main.go:18-46 | rate 1 000 000 001 passes validation but the zero period makes the ticker panic |
| `Producer.HandleTick` | Sensor_node/cmd/sensor/main.go:58-73 | a tick records exactly the reading `GetReading` generates from the tick's draw and time, and the outcome of sending that same reading; the outcome is a failure exactly when the transport failed |
| `Producer.Step` | Sensor_node/cmd/sensor/main.go:56-80 | a tick appends exactly one record and keeps running; a signal stops the loop; a stopped loop changes nothing |
| `Producer.StoppedStaysStopped` | Sensor_node/cmd/sensor/main.go:75-78 | after the stop no further tick is processed |
| `Producer.RunHandlesTicksUntilSignal` | Sensor_node/cmd/sensor/main.go:56-80 | the loop records one generate-and-send for each tick before the first signal, in order and including failed sends, and ends stopped exactly when a signal arrived |
| `Producer.SendFailureKeepsRunning` | Sensor_node/cmd/sensor/main.go:71-73 | a failed send is recorded and the loop stays running |

## Left out

- gRPC dialing, connection close, the 5-second call timeout and the generated stubs are foreign library calls. The call is the input `rpc`, and a timeout is one of its `TransportError` results.
- `rand.Intn` and `time.Now` are inputs: the draw `r` with `0 <= r < n`, and the timestamp `now`.
- Console printing, `log`/`slog` output, and RFC 3339 or "2006-01-02" time formatting have no effect on any result. This covers the warning `SendReading` logs for a rejected reading and the rejection log in `ProcessReading`.
- `flag` parsing: the parsed configuration is the input of `SensorConfig.LoadFromCli`.
- OS signal delivery and the random choice Go's `select` makes when a tick and a signal are ready together are not modelled. The event sequence fixes that order.
- Ticker timing: events carry no wall-clock spacing.
- The sink's server, listener, graceful stop, `.env` configuration and process exit are process lifecycle with no decision logic. The gRPC handler is pure delegation to `ProcessReading`, so it is the identity here.
- Concurrent in-flight sends are not modelled. The producer calls `SendReading` synchronously inside the loop, so sends cannot overlap or reorder.
- `Text.Lower`, `DataSource.ContainsAny`: lower-casing maps 'A'..'Z', U+0130 and U+212A as Go's `strings.ToLower` does, and keeps every other character. Go also lowers other non-ASCII letters, but always to non-ASCII letters. These are the only characters that lower to ASCII letters, and every generator keyword is ASCII, so classification agrees with Go for every name. For keywords with non-ASCII letters it could differ.
- Sensor names are sequences of Unicode characters. Go strings are byte strings, so a name that is not valid UTF-8 cannot be represented. `strings.ToLower` would turn its invalid bytes into U+FFFD.
- `Producer.Start`: the `NewTelemetryClient` dial and its fatal exit on failure are a foreign gRPC call and are not modelled.
