/** The producer's configuration (`config.Config`) and the checks `LoadFromCLI` applies once the
    flags are parsed. Flag parsing itself is not modelled: the parsed fields are the input. */
module SensorConfig {
  import opened GoInts
  import opened Results
  import Decimal

  /** The parsed flags; `rate` is Go's 64-bit `int`. */
  datatype Config = Config(rate: Int64, sensorName: string, sinkAddress: string, bindAddress: string)

  /** The flag defaults: a zero rate, empty name and address, and ":0" as bind address. */
  const Defaults: Config := Config(0, "", "", ":0")

  /** The three ways validation can fail, with the text of each error. */
  datatype ConfigError = RateNotPositive(got: int) | SensorNameMissing | SinkAddressMissing {
    function Message(): string {
      match this
      case RateNotPositive(got) => RatePrefix + Decimal.FormatInt(got)
      case SensorNameMissing => "REQUIRED: -sensor-name must be provided"
      case SinkAddressMissing => "REQUIRED: -sink-address must be provided"
    }
  }

  const RatePrefix: string := "REQUIRED: -rate must be provided and positive, got "

  /** A configuration the producer may run with; the bind address plays no part. */
  predicate Valid(cfg: Config) {
    cfg.rate > 0 && cfg.sensorName != "" && cfg.sinkAddress != ""
  }

  /** The checks of `LoadFromCLI`, in source order: rate, name, sink address. On success the
      parsed configuration is returned unchanged. */
  function LoadFromCli(parsed: Config): (r: Result<Config, ConfigError>)
    ensures r.Ok? <==> Valid(parsed)
    ensures r.Ok? ==> r.value == parsed
    ensures r.Err? && parsed.rate <= 0 ==> r.error == RateNotPositive(parsed.rate)
  {
    if parsed.rate <= 0 then Err(RateNotPositive(parsed.rate))
    else if parsed.sensorName == "" then Err(SensorNameMissing)
    else if parsed.sinkAddress == "" then Err(SinkAddressMissing)
    else Ok(parsed)
  }

  /** The first failing check is the one reported: a later field's problem is reported only when
      every earlier field is fine. */
  lemma FirstFailureReported(parsed: Config)
    ensures LoadFromCli(parsed) == Err(SensorNameMissing) <==> parsed.rate > 0 && parsed.sensorName == ""
    ensures LoadFromCli(parsed) == Err(SinkAddressMissing) <==>
              parsed.rate > 0 && parsed.sensorName != "" && parsed.sinkAddress == ""
  {
  }

  /** Starting from the flag defaults, a run that sets nothing fails on the rate, reporting 0. */
  lemma DefaultsRejected()
    ensures LoadFromCli(Defaults) == Err(RateNotPositive(0))
    ensures LoadFromCli(Defaults).error.Message() == "REQUIRED: -rate must be provided and positive, got 0"
  {
    assert Decimal.FormatInt(0) == "0";
  }

  /** The bind address is never checked: any value, ":0" included, leaves the verdict alone. */
  lemma BindAddressUnchecked(parsed: Config, bind: string)
    ensures LoadFromCli(parsed.(bindAddress := bind)).Ok? == LoadFromCli(parsed).Ok?
    ensures LoadFromCli(parsed).Err? ==> LoadFromCli(parsed.(bindAddress := bind)) == LoadFromCli(parsed)
  {
  }

  /** Different errors print differently: the message identifies the check that failed and,
      for the rate, the rejected value. */
  lemma MessageIdentifiesError(a: ConfigError, b: ConfigError)
    requires a.Message() == b.Message()
    ensures a == b
  {
    var m := a.Message();
    if a.RateNotPositive? && b.RateNotPositive? {
      var n := |RatePrefix|;
      assert Decimal.FormatInt(a.got) == m[n..];
      assert Decimal.FormatInt(b.got) == m[n..];
      Decimal.FormatIntInjective(a.got, b.got);
    }
  }
}
