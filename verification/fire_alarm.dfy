/** The fire alarm's per-cycle decision logic: two sticky hazard latches set
    from this cycle's detector comparisons and the test button, a deactivation
    step gated on the siren and on a matching code, and the strobe period
    derived from the latch pair.

    The float sensor comparisons (temperature above 38 degrees C, gas voltage
    above 1.0 V) arrive as booleans in `Readings`; the code matcher is an
    oracle; the siren and strobe light are the two actuator booleans of
    `AlarmState`, written only by this module. */
module FireAlarm {

  /** Strobe and siren periods in milliseconds, one per latch combination. */
  const StrobeTimeGas: int := 1000
  const StrobeTimeOverTemp: int := 500
  const StrobeTimeGasAndOverTemp: int := 100

  /** One cycle's instantaneous inputs: the two threshold comparisons and the
      level of the alarm test button. */
  datatype Readings = Readings(overTemperatureNow: bool, gasNow: bool, testButton: bool)

  /** The two channels a deactivation code can arrive on. */
  datatype CodeSource = Keypad | PcSerial

  /** What the code matcher answers this cycle when asked about each channel. */
  datatype MatchOracle = MatchOracle(keypad: bool, pcSerial: bool)

  datatype CycleInput = CycleInput(readings: Readings, oracle: MatchOracle)

  /** The module's globals together with the two actuator states.
      `gasDetected` and `overTemperatureDetected` are the sticky latches;
      the two `...DetectorState` fields hold this cycle's comparisons. */
  datatype AlarmState = AlarmState(
    gasDetected: bool,
    overTemperatureDetected: bool,
    gasDetectorState: bool,
    overTemperatureDetectorState: bool,
    siren: bool,
    strobe: bool)

  /** Result of the deactivation step: the new state and the channels whose
      matcher was consulted, in the order they were consulted. */
  datatype Deactivation = Deactivation(state: AlarmState, queried: seq<CodeSource>)

  /** Result of one full update: the new state, the period handed to both the
      siren and the strobe driver, and the channels consulted. */
  datatype Cycle = Cycle(state: AlarmState, strobeTime: int, queried: seq<CodeSource>)

  /** Every global starts OFF, and so do both actuators. */
  const Init: AlarmState := AlarmState(false, false, false, false, false, false)

  /** At least one hazard latch is set. */
  predicate AlarmActive(s: AlarmState)
  {
    s.gasDetected || s.overTemperatureDetected
  }

  /** The siren sounds exactly while a latch is set, and the strobe follows it. */
  predicate ActuatorsFollowLatches(s: AlarmState)
  {
    s.siren == AlarmActive(s) && s.strobe == s.siren
  }

  /** A code matched this cycle on the keypad or on the PC serial link. */
  predicate CodeMatched(oracle: MatchOracle)
  {
    oracle.keypad || oracle.pcSerial
  }

  /** No cycle of the run sees a matching code on either channel. */
  predicate NoCodeMatch(inputs: seq<CycleInput>)
  {
    forall i :: 0 <= i < |inputs| ==> !CodeMatched(inputs[i].oracle)
  }

  /** The period for the current latch pair. Each of the four combinations
      gets its own period, and 0 means silent. */
  function StrobeTime(gasDetected: bool, overTemperatureDetected: bool): (r: int)
    ensures r == StrobeTimeGasAndOverTemp <==> gasDetected && overTemperatureDetected
    ensures r == StrobeTimeGas <==> gasDetected && !overTemperatureDetected
    ensures r == StrobeTimeOverTemp <==> !gasDetected && overTemperatureDetected
    ensures r == 0 <==> !gasDetected && !overTemperatureDetected
  {
    if gasDetected && overTemperatureDetected then StrobeTimeGasAndOverTemp
    else if gasDetected then StrobeTimeGas
    else if overTemperatureDetected then StrobeTimeOverTemp
    else 0
  }

  /** The period identifies the latch pair: no two combinations share one. */
  lemma StrobeTimeDeterminesLatches(g1: bool, o1: bool, g2: bool, o2: bool)
    requires StrobeTime(g1, o1) == StrobeTime(g2, o2)
    ensures g1 == g2 && o1 == o2
  {
  }

  /** The activation step: record both comparisons, latch whatever hazard is
      present now, and latch both while the test button is held. Any trigger
      switches both actuators on; nothing here switches anything off. */
  function ActivationUpdate(s: AlarmState, rd: Readings): (r: AlarmState)
    ensures r.overTemperatureDetectorState == rd.overTemperatureNow
    ensures r.gasDetectorState == rd.gasNow
    ensures r.overTemperatureDetected == (s.overTemperatureDetected || rd.overTemperatureNow || rd.testButton)
    ensures r.gasDetected == (s.gasDetected || rd.gasNow || rd.testButton)
    ensures r.siren == (s.siren || rd.overTemperatureNow || rd.gasNow || rd.testButton)
    ensures r.strobe == (s.strobe || rd.overTemperatureNow || rd.gasNow || rd.testButton)
  {
    var temperatureRead := s.(overTemperatureDetectorState := rd.overTemperatureNow);
    var temperatureLatched :=
      if temperatureRead.overTemperatureDetectorState
      then temperatureRead.(overTemperatureDetected := true, siren := true, strobe := true)
      else temperatureRead;
    var gasRead := temperatureLatched.(gasDetectorState := rd.gasNow);
    var gasLatched :=
      if gasRead.gasDetectorState
      then gasRead.(gasDetected := true, siren := true, strobe := true)
      else gasRead;
    if rd.testButton
    then gasLatched.(overTemperatureDetected := true, gasDetected := true, siren := true, strobe := true)
    else gasLatched
  }

  /** Silence both actuators and clear both latches; the detector states
      keep this cycle's comparisons. */
  function Deactivate(s: AlarmState): (r: AlarmState)
    ensures !r.gasDetected && !r.overTemperatureDetected
    ensures !r.siren && !r.strobe
    ensures r.gasDetectorState == s.gasDetectorState
    ensures r.overTemperatureDetectorState == s.overTemperatureDetectorState
    ensures !AlarmActive(r) && ActuatorsFollowLatches(r)
  {
    s.(siren := false, strobe := false, overTemperatureDetected := false, gasDetected := false)
  }

  /** The deactivation step. While the siren sounds, the keypad channel is
      asked first, and the PC serial channel only if the keypad did not
      match; either match deactivates. */
  function DeactivationUpdate(s: AlarmState, oracle: MatchOracle): (r: Deactivation)
    ensures r.state != s ==> s.siren && CodeMatched(oracle)
    ensures s.siren && CodeMatched(oracle) ==> r.state == Deactivate(s)
    ensures Keypad in r.queried <==> s.siren
    ensures PcSerial in r.queried <==> s.siren && !oracle.keypad
    ensures |r.queried| > 0 ==> r.queried[0] == Keypad
    ensures |r.queried| <= 2
  {
    if s.siren then
      if oracle.keypad then Deactivation(Deactivate(s), [Keypad])
      else if oracle.pcSerial then Deactivation(Deactivate(s), [Keypad, PcSerial])
      else Deactivation(s, [Keypad, PcSerial])
    else Deactivation(s, [])
  }

  /** One control cycle: activation, then deactivation, then the period of
      the resulting latch pair to both drivers. */
  function Update(s: AlarmState, input: CycleInput): (r: Cycle)
    ensures r.strobeTime == StrobeTime(r.state.gasDetected, r.state.overTemperatureDetected)
    ensures r.state.gasDetectorState == input.readings.gasNow
    ensures r.state.overTemperatureDetectorState == input.readings.overTemperatureNow
    // a code accepted in this cycle wins over a hazard still present in it
    ensures ActivationUpdate(s, input.readings).siren && CodeMatched(input.oracle) ==>
              !r.state.gasDetected && !r.state.overTemperatureDetected &&
              !r.state.siren && !r.state.strobe && r.strobeTime == 0
    ensures !(ActivationUpdate(s, input.readings).siren && CodeMatched(input.oracle)) ==>
              r.state == ActivationUpdate(s, input.readings)
    // a latch goes from ON to OFF only through an accepted code
    ensures (s.gasDetected && !r.state.gasDetected) || (s.overTemperatureDetected && !r.state.overTemperatureDetected) ==>
              CodeMatched(input.oracle)
    ensures ActuatorsFollowLatches(s) ==> ActuatorsFollowLatches(r.state)
    ensures ActuatorsFollowLatches(s) ==> (r.strobeTime > 0 <==> r.state.siren)
  {
    var activated := ActivationUpdate(s, input.readings);
    var deactivation := DeactivationUpdate(activated, input.oracle);
    var time := StrobeTime(deactivation.state.gasDetected, deactivation.state.overTemperatureDetected);
    Cycle(deactivation.state, time, deactivation.queried)
  }

  /** The state after a sequence of control cycles. */
  function Run(s: AlarmState, inputs: seq<CycleInput>): (r: AlarmState)
    ensures ActuatorsFollowLatches(s) ==> ActuatorsFollowLatches(r)
    ensures NoCodeMatch(inputs) ==>
              (s.gasDetected ==> r.gasDetected) && (s.overTemperatureDetected ==> r.overTemperatureDetected)
    decreases |inputs|
  {
    if |inputs| == 0 then s
    else
      assert NoCodeMatch(inputs) ==> NoCodeMatch(inputs[1..]) by {
        if NoCodeMatch(inputs) {
          forall i | 0 <= i < |inputs[1..]|
            ensures !CodeMatched(inputs[1..][i].oracle)
          {
            assert inputs[1..][i] == inputs[i + 1];
          }
        }
      }
      Run(Update(s, inputs[0]).state, inputs[1..])
  }

  /** Holding the test button for a single cycle latches both hazards, and
      they stay latched, with the siren on, however long the run continues
      without a matching code. */
  lemma TestPressLatchesBoth(s: AlarmState, inputs: seq<CycleInput>)
    requires ActuatorsFollowLatches(s)
    requires |inputs| > 0 && inputs[0].readings.testButton
    requires NoCodeMatch(inputs)
    ensures Run(s, inputs).gasDetected && Run(s, inputs).overTemperatureDetected
    ensures Run(s, inputs).siren && Run(s, inputs).strobe
    ensures Run(s, inputs) != Init
  {
  }

  /** Every cycle of the run sees an over-temperature and nothing else. */
  predicate OverTemperatureOnly(inputs: seq<CycleInput>)
  {
    forall i :: 0 <= i < |inputs| ==> inputs[i].readings == Readings(true, false, false)
  }

  /** A sustained over-temperature with no code entered, starting from a
      state with no gas latched, ends with only the over-temperature latch
      set, the siren on, and the 500 ms period. */
  lemma {:induction false} SustainedOverTemperature(s: AlarmState, inputs: seq<CycleInput>)
    requires ActuatorsFollowLatches(s) && !s.gasDetected
    requires |inputs| > 0
    requires OverTemperatureOnly(inputs) && NoCodeMatch(inputs)
    ensures Run(s, inputs).overTemperatureDetected && !Run(s, inputs).gasDetected
    ensures Run(s, inputs).siren && Run(s, inputs).strobe
    ensures StrobeTime(Run(s, inputs).gasDetected, Run(s, inputs).overTemperatureDetected) == StrobeTimeOverTemp
    decreases |inputs|
  {
    assert !CodeMatched(inputs[0].oracle);
    assert inputs[0].readings == Readings(true, false, false);
    var next := Update(s, inputs[0]).state;
    assert next.overTemperatureDetected && !next.gasDetected && next.siren;
    var rest := inputs[1..];
    assert Run(s, inputs) == Run(next, rest);
    if |rest| > 0 {
      assert OverTemperatureOnly(rest) && NoCodeMatch(rest) by {
        forall i | 0 <= i < |rest|
          ensures rest[i].readings == Readings(true, false, false) && !CodeMatched(rest[i].oracle)
        {
          assert rest[i] == inputs[i + 1];
        }
      }
      SustainedOverTemperature(next, rest);
    }
  }

  /** The over-temperature scenario from power-up: any number of cycles at,
      say, 40 degrees C with normal gas and no code. */
  lemma OverTemperatureFromInit(inputs: seq<CycleInput>)
    requires |inputs| > 0
    requires OverTemperatureOnly(inputs) && NoCodeMatch(inputs)
    ensures Run(Init, inputs).overTemperatureDetected && !Run(Init, inputs).gasDetected
    ensures Run(Init, inputs).siren
    ensures StrobeTime(Run(Init, inputs).gasDetected, Run(Init, inputs).overTemperatureDetected) == 500
  {
    SustainedOverTemperature(Init, inputs);
  }
}
