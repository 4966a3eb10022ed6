/** The identification service as it is implemented: buffers, counters and callbacks updated per sample. */
module ElectricalParametersIdentificationClass {
  import opened Basics
  import R = ResistanceModel
  import P = PolePairModel

  /** The accumulation of one average. */
  method Accumulate(samples: seq<real>) returns (sum: real)
    ensures sum == R.Sum(samples)
  {
    sum := 0.0;
    for i := 0 to |samples|
      invariant sum == R.Sum(samples[..i])
    {
      assert samples[..i + 1][..i] == samples[..i];
      sum := sum + samples[i];
    }
    assert samples[..|samples|] == samples;
  }

  /** The oldest sample leaves once it has been averaged. */
  method AverageAndRemoveFront(deque: seq<real>) returns (average: real, rest: seq<real>)
    requires deque != []
    ensures average == R.Mean(deque) && rest == deque[1..]
  {
    var sum := Accumulate(deque);
    average := sum / |deque| as real;
    rest := deque[1..];
  }

  method GetSteadyStateCurrent(samples: seq<real>) returns (current: real)
    requires |samples| == R.SAMPLES
    ensures current == R.SteadyState(samples)
  {
    var lastQuarter := (|samples| as real * 0.9).Floor;
    assert lastQuarter == R.LAST;
    var sum := Accumulate(samples[lastQuarter..]);
    current := sum / (|samples| - lastQuarter) as real;
  }

  /** A linear search for the first sample that reaches the target. */
  method GetTauFromCurrentSamples(samples: seq<real>, steadyStateCurrent: real) returns (tau: Option<real>)
    ensures tau == R.Tau(samples, steadyStateCurrent)
  {
    var targetCurrent := R.THRESHOLD * steadyStateCurrent;
    for i := 0 to |samples|
      invariant forall j | 0 <= j < i :: samples[j] < targetCurrent
    {
      if samples[i] >= targetCurrent {
        FirstIs(samples, targetCurrent, i);
        return Some(R.TauAt(i));
      }
    }
    FirstIs(samples, targetCurrent, |samples|);
    tau := None;
  }

  lemma FirstIs(samples: seq<real>, target: real, i: nat)
    requires i <= |samples| && (forall j | 0 <= j < i :: samples[j] < target)
    requires i < |samples| ==> samples[i] >= target
    ensures R.FirstAtLeast(samples, target) == i
  {
    var k := R.FirstAtLeast(samples, target);
    assert k < |samples| ==> samples[k] >= target;
  }

  class ElectricalParametersIdentificationImpl {
    const vdc: real
    const pi: real
    var running: bool                                  // the inverter delivers current samples
    var testVoltagePercent: real
    var currentSamples: seq<real>
    var filteredCurrentSample: seq<real>
    var onResistanceAndInductanceDone: Option<nat>
    var resistanceAnswers: seq<R.Answer>
    var electricalRevolutions: nat
    var currentSampleIndex: nat
    var previousPosition: real
    var accumulatedRotation: real
    var onPolePairsDone: Option<nat>
    var polePairAnswers: seq<P.Answer>

    ghost function Measurement(): R.Measurement
      reads this
    {
      R.Measurement(R.TestVoltage(testVoltagePercent, vdc), currentSamples, filteredCurrentSample, !running,
                    onResistanceAndInductanceDone, resistanceAnswers)
    }

    ghost function Estimate(): P.Estimate
      reads this
    {
      P.Estimate(electricalRevolutions, currentSampleIndex, previousPosition, accumulatedRotation, !running,
                 onPolePairsDone, polePairAnswers)
    }

    constructor (vdc: real, pi: real)
      ensures this.vdc == vdc && this.pi == pi
      ensures onResistanceAndInductanceDone == None && onPolePairsDone == None
      ensures resistanceAnswers == [] && polePairAnswers == []
    {
      this.vdc, this.pi, running, testVoltagePercent := vdc, pi, false, 15.0;
      currentSamples, filteredCurrentSample, onResistanceAndInductanceDone, resistanceAnswers := [], [], None, [];
      electricalRevolutions, currentSampleIndex, previousPosition, accumulatedRotation := 5, 0, 0.0, 0.0;
      onPolePairsDone, polePairAnswers := None, [];
    }

    /** From here on the settle timer has passed and samples arrive. */
    method EstimateResistanceAndInductance(testVoltagePercent: real, onDone: nat)
      modifies this`testVoltagePercent, this`onResistanceAndInductanceDone, this`currentSamples,
               this`filteredCurrentSample, this`running
      ensures Measurement() == R.Start(R.TestVoltage(testVoltagePercent, vdc), onDone, old(resistanceAnswers))
    {
      this.testVoltagePercent := testVoltagePercent;
      onResistanceAndInductanceDone := Some(onDone);
      currentSamples := [];
      filteredCurrentSample := [];
      running := true;
    }

    method OnPhaseCurrents(current: real)
      requires Measurement().Running()
      modifies this`currentSamples, this`filteredCurrentSample, this`running, this`onResistanceAndInductanceDone,
               this`resistanceAnswers
      ensures Measurement() == R.Sample(old(Measurement()), current)
    {
      currentSamples := currentSamples + [current];
      if |currentSamples| == R.AVERAGE {
        var average;
        average, currentSamples := AverageAndRemoveFront(currentSamples);
        filteredCurrentSample := filteredCurrentSample + [average];
      }
      if |filteredCurrentSample| == R.SAMPLES {
        AnalyzeInductanceMeasures();
      }
    }

    method AnalyzeInductanceMeasures()
      requires |filteredCurrentSample| == R.SAMPLES && onResistanceAndInductanceDone.Some?
      modifies this`running, this`filteredCurrentSample, this`onResistanceAndInductanceDone, this`resistanceAnswers
      ensures Measurement() == R.Analyze(old(Measurement()))
    {
      running := false;
      var voltage := R.TestVoltage(testVoltagePercent, vdc);
      var steadyStateCurrent := GetSteadyStateCurrent(filteredCurrentSample);
      if steadyStateCurrent <= 0.0 {
        AnswerResistance(None, None);
      } else {
        var tau := GetTauFromCurrentSamples(filteredCurrentSample, steadyStateCurrent);
        var resistance := R.CalculateResistance(voltage, steadyStateCurrent);
        if tau.Some? {
          AnswerResistance(Some(resistance), Some(R.CalculateInductance(resistance, tau.value)));
        } else {
          AnswerResistance(None, None);
        }
        filteredCurrentSample := [];
      }
    }

    /** Cleared first, then called. */
    method AnswerResistance(resistance: Option<real>, inductance: Option<real>)
      requires onResistanceAndInductanceDone.Some?
      modifies this`onResistanceAndInductanceDone, this`resistanceAnswers
      ensures onResistanceAndInductanceDone == None
      ensures resistanceAnswers == old(resistanceAnswers) +
                [R.Answer(old(onResistanceAndInductanceDone).value, resistance, inductance)]
    {
      var callback := onResistanceAndInductanceDone.value;
      onResistanceAndInductanceDone := None;
      resistanceAnswers := resistanceAnswers + [R.Answer(callback, resistance, inductance)];
    }

    method EstimateNumberOfPolePairs(electricalRevolutions: nat, position: real, onDone: nat)
      requires pi > 0.0
      modifies this`electricalRevolutions, this`onPolePairsDone, this`currentSampleIndex, this`accumulatedRotation,
               this`previousPosition, this`running, this`polePairAnswers
      ensures Estimate() == P.Start(electricalRevolutions, position, onDone, old(polePairAnswers), pi)
    {
      this.electricalRevolutions := electricalRevolutions;
      onPolePairsDone := Some(onDone);
      currentSampleIndex := 0;
      accumulatedRotation := 0.0;
      previousPosition := position;
      running := true;
      ApplyNextElectricalAngle();
    }

    /** The next step is applied and its settle timer started, or all of them are done. */
    method ApplyNextElectricalAngle()
      requires pi > 0.0
      modifies this`running, this`onPolePairsDone, this`polePairAnswers
      ensures Estimate() == P.Advance(old(Estimate()), pi)
    {
      var totalSteps := electricalRevolutions * P.STEPS;
      if currentSampleIndex >= totalSteps {
        CalculatePolePairs();
      }
    }

    method OnSettled(position: real)
      requires pi > 0.0
      modifies this`accumulatedRotation, this`previousPosition, this`currentSampleIndex, this`running,
               this`onPolePairsDone, this`polePairAnswers
      ensures Estimate() == P.Settled(old(Estimate()), position, pi)
    {
      var delta := position - previousPosition;
      delta := delta - 2.0 * pi * ((delta + pi) / (2.0 * pi)).Floor as real;
      accumulatedRotation := accumulatedRotation + delta;
      previousPosition := position;
      currentSampleIndex := currentSampleIndex + 1;
      ApplyNextElectricalAngle();
    }

    method CalculatePolePairs()
      requires pi > 0.0
      modifies this`running, this`onPolePairsDone, this`polePairAnswers
      ensures Estimate() == P.Finish(old(Estimate()), pi)
    {
      running := false;
      if onPolePairsDone.Some? {
        var callback := onPolePairsDone.value;
        var mechanicalRotation := P.Abs(accumulatedRotation);
        var polePairs: Option<int> := None;
        if mechanicalRotation > pi / 2.0 {
          var revolutions := electricalRevolutions as real;
          var mechanicalRevolutions := mechanicalRotation / (2.0 * pi);
          polePairs := Some(P.Round(revolutions / mechanicalRevolutions));
        }
        onPolePairsDone := None;
        polePairAnswers := polePairAnswers + [P.Answer(callback, polePairs)];
      }
    }
  }
}
