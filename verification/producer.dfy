/** The producer's main loop (`cmd/sensor/main.go`): derive the tick period from the configured
    rate, then on each tick generate one reading and send it, until a stop signal arrives.
    Timer ticks and signals arrive as a sequence of events; each tick carries the inputs the
    outside world supplies to it (the random draw, the clock, the transport's answer). */
module Producer {
  import opened GoInts
  import opened Results
  import opened Models
  import opened Wire
  import opened DataSource
  import opened Client
  import SensorConfig

  /** `time.Second / time.Duration(rate)`: the tick period in nanoseconds, by Go's truncating
      division. A positive rate gets the largest period that fits `rate` times into a second. */
  function TickInterval(rate: Int64): (d: int)
    requires rate != 0
    ensures rate > 0 ==> d * rate <= NanosPerSecond < (d + 1) * rate
  {
    Quot(NanosPerSecond, rate)
  }

  /** The period is positive exactly for rates from 1 to one billion per second; any other rate
      gives a zero or negative period. */
  lemma IntervalPositiveIff(rate: Int64)
    requires rate != 0
    ensures TickInterval(rate) > 0 <==> 1 <= rate <= NanosPerSecond
  {
    if rate > NanosPerSecond {
      assert TickInterval(rate) * rate <= NanosPerSecond < rate;
    }
  }

  /** Two messages a second tick every half second. */
  lemma TwoPerSecond()
    ensures TickInterval(2) == 500_000_000
  {
  }

  /** A running producer: its data source and tick period. */
  datatype Producer = Producer(source: SensorDataSource, interval: int)

  /** `time.NewTicker` panics on a period that is not positive. */
  datatype StartError = TickerPanic(interval: int)

  /** Startup after configuration: the data source for the configured name and the ticker.
      The division is defined because a validated rate is positive. */
  function Start(cfg: SensorConfig.Config): (r: Result<Producer, StartError>)
    requires SensorConfig.Valid(cfg)
    ensures r.Ok? <==> cfg.rate <= NanosPerSecond
    ensures r.Ok? ==> r.value.source.sensorName == cfg.sensorName && r.value.interval > 0
    ensures r.Ok? ==> r.value.interval == TickInterval(cfg.rate)
    ensures r.Err? ==> r.error == TickerPanic(TickInterval(cfg.rate))
  {
    var interval := TickInterval(cfg.rate);
    IntervalPositiveIff(cfg.rate);
    if interval <= 0 then Err(TickerPanic(interval))
    else Ok(Producer(NewSensorDataSource(cfg.sensorName), interval))
  }

  /** A rate above one billion passes validation, yet the zero period it yields makes the ticker
      panic at startup. */
  lemma OversizedRatePanics()
    ensures SensorConfig.LoadFromCli(SensorConfig.Config(1_000_000_001, "s", "host:1", ":0")).Ok?
    ensures Start(SensorConfig.Config(1_000_000_001, "s", "host:1", ":0")) == Err(TickerPanic(0))
  {
    assert TickInterval(1_000_000_001) == 0;
  }

  /** What the loop reacts to: a timer tick, or SIGINT/SIGTERM. */
  datatype Event =
    | Tick(draw: int, now: Timestamp, rpc: WireReading -> RpcResult)
    | Signal

  /** The record of one tick: the reading generated and the send's outcome. */
  datatype TickRecord = TickRecord(reading: SensorReading, outcome: Outcome<SendError>)

  /** The loop is running or has returned; either way it keeps the record of its ticks. */
  datatype LoopState = Running(ticks: seq<TickRecord>) | Stopped(ticks: seq<TickRecord>)

  /** Every tick's draw is one `rand.Intn` can return for this source's name. */
  predicate DrawsValid(ds: SensorDataSource, events: seq<Event>) {
    forall i :: 0 <= i < |events| && events[i].Tick? ==> ValidDraw(ds.sensorName, events[i].draw)
  }

  /** The body of the tick case: one reading generated, then one send of that same reading. */
  function HandleTick(ds: SensorDataSource, e: Event): (rec: TickRecord)
    requires e.Tick? && ValidDraw(ds.sensorName, e.draw)
    ensures rec.reading.sensorName == ds.sensorName && rec.reading.timestamp == e.now
    ensures MinReadingValue <= rec.reading.value <= MaxReadingValue
    ensures rec.reading == GetReading(ds, e.draw, e.now)
    ensures rec.outcome == SendReading(rec.reading, e.rpc)
    ensures rec.outcome.Fail? <==> e.rpc(ToWire(rec.reading)).Err?
  {
    var reading := GetReading(ds, e.draw, e.now);
    TickRecord(reading, SendReading(reading, e.rpc))
  }

  /** One turn of the `select`: a tick appends one record and keeps running whatever the send's
      outcome; a signal stops the loop; a stopped loop handles nothing more. */
  function Step(ds: SensorDataSource, s: LoopState, e: Event): (s': LoopState)
    requires e.Tick? ==> ValidDraw(ds.sensorName, e.draw)
    ensures s.Stopped? ==> s' == s
    ensures s.Running? && e.Signal? ==> s' == Stopped(s.ticks)
    ensures s.Running? && e.Tick? ==> s'.Running? && |s'.ticks| == |s.ticks| + 1 && s'.ticks[..|s.ticks|] == s.ticks
  {
    match s
    case Stopped(_) => s
    case Running(ticks) =>
      match e
      case Signal => Stopped(ticks)
      case Tick(_, _, _) => Running(ticks + [HandleTick(ds, e)])
  }

  /** The loop over a sequence of events. */
  function Run(ds: SensorDataSource, s: LoopState, events: seq<Event>): LoopState
    requires DrawsValid(ds, events)
    decreases |events|
  {
    if events == [] then s
    else Run(ds, Step(ds, s, events[0]), events[1..])
  }

  /** Once stopped, the loop stays stopped and records nothing further. */
  lemma {:induction false} StoppedStaysStopped(ds: SensorDataSource, ticks: seq<TickRecord>, events: seq<Event>)
    requires DrawsValid(ds, events)
    ensures Run(ds, Stopped(ticks), events) == Stopped(ticks)
    decreases |events|
  {
    if events != [] {
      StoppedStaysStopped(ds, ticks, events[1..]);
    }
  }

  /** The events the loop handles: the ticks before the first signal. */
  function TicksBeforeSignal(events: seq<Event>): (ticks: seq<Event>)
    ensures |ticks| <= |events|
    ensures forall i :: 0 <= i < |ticks| ==> ticks[i].Tick?
  {
    if events == [] || events[0].Signal? then []
    else [events[0]] + TicksBeforeSignal(events[1..])
  }

  /** Running from a fresh start, the loop records exactly one generate-and-send per tick before
      the first signal, in order, failed sends included; it ends stopped exactly when a signal
      arrived. */
  lemma {:induction false} RunHandlesTicksUntilSignal(ds: SensorDataSource, done: seq<TickRecord>, events: seq<Event>)
    requires DrawsValid(ds, events)
    ensures var ticks := TicksBeforeSignal(events);
            var s := Run(ds, Running(done), events);
            && |s.ticks| == |done| + |ticks|
            && s.ticks[..|done|] == done
            && (forall i :: 0 <= i < |ticks| ==>
                  ValidDraw(ds.sensorName, ticks[i].draw) && s.ticks[|done| + i] == HandleTick(ds, ticks[i]))
            && (s.Stopped? <==> exists i :: 0 <= i < |events| && events[i].Signal?)
    decreases |events|
  {
    if events == [] {
    } else if events[0].Signal? {
      StoppedStaysStopped(ds, done, events[1..]);
      assert events[0].Signal?;
    } else {
      var rest := events[1..];
      assert DrawsValid(ds, rest) by {
        forall i | 0 <= i < |rest| && rest[i].Tick? ensures ValidDraw(ds.sensorName, rest[i].draw) {
          assert rest[i] == events[i + 1];
        }
      }
      var rec := HandleTick(ds, events[0]);
      RunHandlesTicksUntilSignal(ds, done + [rec], rest);
      var ticks := TicksBeforeSignal(events);
      var s := Run(ds, Running(done), events);
      assert s == Run(ds, Running(done + [rec]), rest);
      assert ticks == [events[0]] + TicksBeforeSignal(rest);
      assert s.ticks[..|done|] == done by {
        assert (done + [rec])[..|done|] == done;
        assert s.ticks[..|done|] == (s.ticks[..|done| + 1])[..|done|];
      }
      forall i | 0 <= i < |ticks|
        ensures ValidDraw(ds.sensorName, ticks[i].draw) && s.ticks[|done| + i] == HandleTick(ds, ticks[i])
      {
        if i == 0 {
          assert s.ticks[|done|] == rec by {
            assert s.ticks[..|done| + 1] == done + [rec];
            assert s.ticks[|done|] == (s.ticks[..|done| + 1])[|done|];
          }
        } else {
          assert ticks[i] == TicksBeforeSignal(rest)[i - 1];
        }
      }
      assert (exists i :: 0 <= i < |events| && events[i].Signal?) <==>
             (exists i :: 0 <= i < |rest| && rest[i].Signal?) by {
        forall i | 0 <= i < |rest| ensures rest[i] == events[i + 1] { }
        if exists i :: 0 <= i < |events| && events[i].Signal? {
          var i :| 0 <= i < |events| && events[i].Signal?;
          assert i > 0 && rest[i - 1].Signal?;
        }
      }
    }
  }

  /** A failed send never stops the loop: it is recorded and the loop keeps ticking. */
  lemma SendFailureKeepsRunning(ds: SensorDataSource, ticks: seq<TickRecord>, e: Event)
    requires e.Tick? && ValidDraw(ds.sensorName, e.draw)
    requires e.rpc(ToWire(GetReading(ds, e.draw, e.now))).Err?
    ensures Step(ds, Running(ticks), e).Running?
    ensures Step(ds, Running(ticks), e).ticks[|ticks|].outcome.Fail?
  {
  }
}
