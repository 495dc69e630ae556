/** The producer's reading generator (`datasource.SensorDataSource`): a value range chosen from the
    sensor name by keyword, first matching rule wins, and one draw from `rand.Intn` inside it.
    The draw and the clock are inputs: `r` is what `rand.Intn` returned, `now` what `time.Now`
    returned. */
module DataSource {
  import opened GoInts
  import opened Text
  import opened Models

  /** `containsAny`: some keyword occurs in the lower-cased text. The Go loop returns on the
      first keyword found; with no keywords it returns false. */
  function ContainsAny(text: string, keywords: seq<string>): (r: bool)
    ensures r <==> exists i :: 0 <= i < |keywords| && Contains(Lower(text), keywords[i])
  {
    AnyKeywordIn(Lower(text), keywords)
  }

  /** The keyword loop of `containsAny`, over text that is already lower-cased. */
  function AnyKeywordIn(lowered: string, keywords: seq<string>): (r: bool)
    ensures r <==> exists i :: 0 <= i < |keywords| && Contains(lowered, keywords[i])
  {
    if keywords == [] then false
    else if Contains(lowered, keywords[0]) then true
    else
      assert forall i :: 1 <= i < |keywords| ==> keywords[i] == keywords[1..][i - 1];
      AnyKeywordIn(lowered, keywords[1..])
  }

  /** The value distributions the generator can choose between. */
  datatype Category = Temperature | Humidity | Pressure | Cpu | Voltage | Generic

  const TemperatureKeywords: seq<string> := ["temp", "temperature"]
  const HumidityKeywords: seq<string> := ["humid", "moisture"]
  const PressureKeywords: seq<string> := ["press", "pressure"]
  const CpuKeywords: seq<string> := ["cpu", "processor"]
  const VoltageKeywords: seq<string> := ["volt", "voltage"]

  /** The dispatch of `generateMockValue`: the `switch` cases in source order. */
  function Classify(name: string): Category {
    if ContainsAny(name, TemperatureKeywords) then Temperature
    else if ContainsAny(name, HumidityKeywords) then Humidity
    else if ContainsAny(name, PressureKeywords) then Pressure
    else if ContainsAny(name, CpuKeywords) then Cpu
    else if ContainsAny(name, VoltageKeywords) then Voltage
    else Generic
  }

  /** One keyword rule of the priority list. */
  datatype Rule = Rule(keywords: seq<string>, category: Category)

  /** The keyword rules as a priority list, highest priority first. */
  const Rules: seq<Rule> := [
    Rule(TemperatureKeywords, Temperature),
    Rule(HumidityKeywords, Humidity),
    Rule(PressureKeywords, Pressure),
    Rule(CpuKeywords, Cpu),
    Rule(VoltageKeywords, Voltage)
  ]

  predicate RuleMatches(name: string, rule: Rule) {
    ContainsAny(name, rule.keywords)
  }

  /** The category of a name is that of the earliest rule it matches, and `Generic` exactly
      when it matches none: the tie-break is list position, not specificity. */
  lemma ClassifyIsFirstMatchingRule(name: string)
    ensures forall i :: 0 <= i < |Rules| ==>
              (Classify(name) == Rules[i].category <==>
                 RuleMatches(name, Rules[i]) && forall j :: 0 <= j < i ==> !RuleMatches(name, Rules[j]))
    ensures Classify(name) == Generic <==> forall i :: 0 <= i < |Rules| ==> !RuleMatches(name, Rules[i])
  {
    var t, h, p, c, v := RuleMatches(name, Rules[0]), RuleMatches(name, Rules[1]),
                         RuleMatches(name, Rules[2]), RuleMatches(name, Rules[3]), RuleMatches(name, Rules[4]);
    assert Classify(name) == if t then Temperature else if h then Humidity else if p then Pressure
                             else if c then Cpu else if v then Voltage else Generic;
  }

  /** The documented inclusive value range of each category. */
  function Low(c: Category): int {
    match c
    case Temperature => -10
    case Humidity => 0
    case Pressure => 980
    case Cpu => 0
    case Voltage => 0
    case Generic => 0
  }

  function High(c: Category): int {
    match c
    case Temperature => 50
    case Humidity => 100
    case Pressure => 1050
    case Cpu => 100
    case Voltage => 120
    case Generic => 100
  }

  /** The `n` that the branch for `c` passes to `rand.Intn(n)`. */
  function DrawBound(c: Category): nat {
    match c
    case Temperature => 61
    case Humidity => 101
    case Pressure => 71
    case Cpu => 101
    case Voltage => 121
    case Generic => 101
  }

  /** A draw `rand.Intn` can return on the branch taken for `name`. */
  predicate ValidDraw(name: string, r: int) {
    0 <= r < DrawBound(Classify(name))
  }

  /** `generateMockValue`, given the draw `r` of the branch taken. The value lies in the
      documented range of the name's category. */
  function GenerateMockValue(name: string, r: int): (v: int)
    requires ValidDraw(name, r)
    ensures Low(Classify(name)) <= v <= High(Classify(name))
  {
    match Classify(name)
    case Temperature => r - 10
    case Humidity => r
    case Pressure => r + 980
    case Cpu => r
    case Voltage => r
    case Generic => r
  }

  /** The draw that makes the generator produce `v`: the inverse of `GenerateMockValue`. */
  function DrawFor(name: string, v: int): (r: int)
    requires Low(Classify(name)) <= v <= High(Classify(name))
    ensures ValidDraw(name, r)
  {
    v - Low(Classify(name))
  }

  /** Draws and values correspond one to one, so every value of the documented range is
      produced by exactly one draw and a uniform draw gives a uniform value. */
  lemma DrawValueBijection(name: string, r: int, v: int)
    requires ValidDraw(name, r)
    requires Low(Classify(name)) <= v <= High(Classify(name))
    ensures GenerateMockValue(name, DrawFor(name, v)) == v
    ensures DrawFor(name, GenerateMockValue(name, r)) == r
    ensures GenerateMockValue(name, r) == v <==> r == DrawFor(name, v)
  {
  }

  /** A name containing "temp" in any letter case takes the temperature branch whatever other
      keywords it contains, so its values lie in [-10, 50]. */
  lemma TemperatureWins(name: string, r: int)
    requires Contains(Lower(name), "temp")
    ensures Classify(name) == Temperature
    ensures ValidDraw(name, r) ==> -10 <= GenerateMockValue(name, r) <= 50
  {
    assert TemperatureKeywords[0] == "temp";
  }

  /** A name matching no keyword gets the generic range [0, 100]. */
  lemma UnmatchedNameIsGeneric(name: string, r: int)
    requires forall k :: k in TemperatureKeywords + HumidityKeywords + PressureKeywords + CpuKeywords + VoltageKeywords
                         ==> !Contains(Lower(name), k)
    ensures Classify(name) == Generic
    ensures ValidDraw(name, r) ==> 0 <= GenerateMockValue(name, r) <= 100
  {
  }

  /** Each long keyword contains its short sibling, so testing only "temp", "press" and "volt"
      decides the same branches. */
  lemma LongKeywordsRedundant(text: string)
    ensures ContainsAny(text, TemperatureKeywords) == ContainsAny(text, ["temp"])
    ensures ContainsAny(text, PressureKeywords) == ContainsAny(text, ["press"])
    ensures ContainsAny(text, VoltageKeywords) == ContainsAny(text, ["volt"])
  {
    var t := Lower(text);
    ContainsPrefix("temperature", 4);
    assert "temperature"[..4] == "temp";
    if Contains(t, "temperature") {
      ContainsTransitive(t, "temperature", "temp");
    }
    ContainsPrefix("pressure", 5);
    assert "pressure"[..5] == "press";
    if Contains(t, "pressure") {
      ContainsTransitive(t, "pressure", "press");
    }
    ContainsPrefix("voltage", 4);
    assert "voltage"[..4] == "volt";
    if Contains(t, "voltage") {
      ContainsTransitive(t, "voltage", "volt");
    }
  }

  /** Matching ignores the letter case of the text. */
  lemma ContainsAnyIgnoresCase(text: string, keywords: seq<string>)
    ensures ContainsAny(Lower(text), keywords) == ContainsAny(text, keywords)
  {
    LowerIdempotent(text);
  }

  /** The example the priority order exists for: "CPU-Temp" is a temperature sensor. */
  lemma CpuTempIsTemperature()
    ensures Classify("CPU-Temp") == Temperature
  {
    var t := Lower("CPU-Temp");
    assert t == "cpu-temp";
    assert OccursAt(t, "temp", 4);
    TemperatureWins("CPU-Temp", 0);
  }

  /** A dotted capital I lowers to 'i', so "HUMİD-PRESS" is a humidity sensor, not a pressure
      sensor. */
  lemma DottedCapitalICompletesKeyword(name: string)
    requires name == "HUM\U{0130}D-PRESS"
    ensures Classify(name) == Humidity
  {
    var t := Lower(name);
    assert !ContainsAny(name, TemperatureKeywords) by {
      assert forall i :: 0 <= i < |t| ==> t[i] != 't' by {
        forall i | 0 <= i < |t| ensures t[i] != 't' {
          assert t[i] == LowerChar(name[i]);
        }
      }
      assert 't' !in t;
      MissingCharExcludes(t, "temp", 't');
      MissingCharExcludes(t, "temperature", 't');
      assert TemperatureKeywords == ["temp", "temperature"];
    }
    assert ContainsAny(name, HumidityKeywords) by {
      assert t[..5] == "humid" by {
        assert t[0] == LowerChar(name[0]) && t[1] == LowerChar(name[1]) && t[2] == LowerChar(name[2]);
        assert t[3] == LowerChar(name[3]) && t[4] == LowerChar(name[4]);
      }
      assert OccursAt(t, "humid", 0);
      assert HumidityKeywords[0] == "humid";
    }
  }

  /** `datasource.SensorDataSource`: only the sensor name, fixed at construction. */
  datatype SensorDataSource = SensorDataSource(sensorName: string)

  function NewSensorDataSource(sensorName: string): (ds: SensorDataSource)
    ensures ds.sensorName == sensorName
  {
    SensorDataSource(sensorName)
  }

  /** The union of all category ranges. */
  const MinReadingValue: int := -10
  const MaxReadingValue: int := 1050

  /** `GetReading`: one fresh reading carrying the source's name, a value drawn from the name's
      range, and the current time. */
  function GetReading(ds: SensorDataSource, r: int, now: Timestamp): (reading: SensorReading)
    requires ValidDraw(ds.sensorName, r)
    ensures reading.sensorName == ds.sensorName
    ensures reading.timestamp == now
    ensures MinReadingValue <= reading.value <= MaxReadingValue
    ensures Low(Classify(ds.sensorName)) <= reading.value <= High(Classify(ds.sensorName))
  {
    SensorReading(ds.sensorName, GenerateMockValue(ds.sensorName, r), now)
  }

  /** Every reading a source yields carries the name it was constructed with, unchanged. */
  lemma ReadingKeepsConstructionName(name: string, r: int, now: Timestamp)
    requires ValidDraw(name, r)
    ensures GetReading(NewSensorDataSource(name), r, now).sensorName == name
    ensures MinInt32 <= GetReading(NewSensorDataSource(name), r, now).value <= MaxInt32
  {
  }
}
