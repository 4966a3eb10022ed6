/** The alignment service as it is implemented. */
module MotorAlignmentClass {
  import opened Basics
  import opened M = AlignmentModel

  class MotorAlignmentImpl {
    var polePairs: nat
    var alignmentConfig: Config
    var currentSampleIndex: nat
    var consecutiveSettledSamples: nat
    var previousPosition: real
    var stopped: bool
    var onAlignmentDone: Option<nat>
    var answers: seq<Answer>

    ghost function View(): Alignment
      reads this
    {
      Alignment(polePairs, alignmentConfig, currentSampleIndex, consecutiveSettledSamples, previousPosition, stopped,
                onAlignmentDone, answers)
    }

    constructor ()
      ensures onAlignmentDone == None && answers == []
    {
      polePairs, alignmentConfig := 1, Config(500, 0.001, 10);
      currentSampleIndex, consecutiveSettledSamples, previousPosition := 0, 0, 0.0;
      stopped, onAlignmentDone, answers := true, None, [];
    }

    method ForceAlignment(polePairs: nat, config: Config, position: real, onDone: nat)
      modifies this
      ensures View() == M.ForceAlignment(old(View()), polePairs, config, position, onDone)
    {
      if onAlignmentDone.Some? {
        return;
      }
      this.polePairs := polePairs;
      alignmentConfig := config;
      onAlignmentDone := Some(onDone);
      currentSampleIndex := 0;
      consecutiveSettledSamples := 0;
      previousPosition := position;
      stopped := false;
    }

    method OnPhaseCurrents(sample: Sample)
      modifies this
      ensures View() == OnSample(old(View()), sample)
    {
      currentSampleIndex := currentSampleIndex + 1;
      if currentSampleIndex >= alignmentConfig.maxSamples {
        FailToConverge();
      } else {
        ProcessPosition(sample);
      }
    }

    method ProcessPosition(sample: Sample)
      modifies this
      ensures View() == M.ProcessPosition(old(View()), sample)
    {
      var positionChange := Distance(sample.position, previousPosition);
      if positionChange < alignmentConfig.settledThreshold {
        consecutiveSettledSamples := consecutiveSettledSamples + 1;
        if consecutiveSettledSamples >= alignmentConfig.settledCount {
          CalculateAlignmentOffset(sample.aligned);
        }
      } else {
        consecutiveSettledSamples := 0;
      }
      previousPosition := sample.position;
    }

    method CalculateAlignmentOffset(aligned: real)
      modifies this`stopped, this`onAlignmentDone, this`answers
      ensures View() == Finish(old(View()), Some(Offset(aligned, polePairs)))
    {
      stopped := true;
      if onAlignmentDone.Some? {
        Done(Some(Offset(aligned, polePairs)));
      }
    }

    method FailToConverge()
      modifies this`stopped, this`onAlignmentDone, this`answers
      ensures View() == Finish(old(View()), None)
    {
      stopped := true;
      if onAlignmentDone.Some? {
        Done(None);
      }
    }

    /** Cleared first, then called. */
    method Done(offset: Option<real>)
      requires onAlignmentDone.Some?
      modifies this`onAlignmentDone, this`answers
      ensures onAlignmentDone == None && answers == old(answers) + [Answer(old(onAlignmentDone).value, offset)]
    {
      var callback := onAlignmentDone.value;
      onAlignmentDone := None;
      answers := answers + [Answer(callback, offset)];
    }
  }
}
