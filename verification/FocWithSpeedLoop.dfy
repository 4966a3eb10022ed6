/** The inner loop as it is implemented: the interrupt updates its counter and the two slots in place. Sine
    and cosine are those of the table. */
module FocWithSpeedLoopClass {
  import opened Trigonometry
  import opened Transforms
  import opened InterruptModel

  class FocWithSpeedLoop {
    const pi: real
    const inv: real
    const prescaler: nat
    const snapshots: array<Snapshot>
    var triggerCounter: nat
    var readyIndex: nat
    var triggers: nat                  // calls of the low-priority interrupt
    var polePairs: real
    var currentMechanicalAngle: real
    var previousSpeedPosition: real
    var lastSpeedPidOutput: real

    ghost predicate Valid()
      reads this, snapshots
    {
      && IsInverseRoot3(inv) && pi > 0.0 && snapshots.Length == 2
      && View().Valid()
    }

    ghost function View(): Loop
      reads this, snapshots
    {
      Loop(prescaler, triggerCounter, readyIndex, snapshots[..], triggers)
    }

    constructor (baseFrequency: nat, lowPriorityFrequency: nat, pi: real, inv: real)
      requires IsInverseRoot3(inv) && pi > 0.0
      requires Frequencies(baseFrequency, lowPriorityFrequency)
      ensures Valid() && fresh(snapshots) && View() == Construct(baseFrequency, lowPriorityFrequency)
    {
      this.pi, this.inv := pi, inv;
      DivisionIsExact(baseFrequency, lowPriorityFrequency);
      prescaler := baseFrequency / lowPriorityFrequency;
      snapshots := new Snapshot[2](i => NO_SNAPSHOT);
      triggerCounter, readyIndex, triggers := 0, 0, 0;
      polePairs, currentMechanicalAngle, previousSpeedPosition, lastSpeedPidOutput := 0.0, 0.0, 0.0, 0.0;
      new;
      assert snapshots[..] == [NO_SNAPSHOT, NO_SNAPSHOT];
    }

    method EnableSpeedLoop()
      requires Valid()
      modifies this
      ensures Valid() && View() == Enable(old(View())) && polePairs == old(polePairs)
      ensures currentMechanicalAngle == previousSpeedPosition == lastSpeedPidOutput == 0.0
    {
      currentMechanicalAngle, previousSpeedPosition, lastSpeedPidOutput := 0.0, 0.0, 0.0;
      triggerCounter := 0;
    }

    /** One interrupt; vd and vq are what the current controllers answer to the currents measured. */
    method CalculateInnerLoop(currentPhases: ThreePhase, position: real, vd: real, vq: real)
      returns (pwm: (int, int, int))
      requires Valid()
      modifies this`triggerCounter, this`readyIndex, this`triggers, this`currentMechanicalAngle, snapshots
      ensures Valid() && currentMechanicalAngle == position
      ensures var angle := position * old(polePairs);
              && View() == Pass(old(View()),
                                Measured(currentPhases, angle, vd, Cosine(angle, pi), Sine(angle, pi), inv))
              && pwm == Output(RotatingFrame(vd, vq), Cosine(angle, pi), Sine(angle, pi), inv)
      ensures 0 <= pwm.0 <= 100 && 0 <= pwm.1 <= 100 && 0 <= pwm.2 <= 100
      ensures var angle := position * old(polePairs);
              Readable(angle, pi) && InUnitCircle(vd, vq) ==>
                Applies(pwm, vd, vq, Cosine(angle, pi), Sine(angle, pi), inv)
    {
      var electricalAngle := position * polePairs;
      currentMechanicalAngle := position;
      var cosTheta := Cosine(electricalAngle, pi);
      var sinTheta := Sine(electricalAngle, pi);
      var snapshot := Measure(currentPhases, electricalAngle, vd, cosTheta, sinTheta);
      pwm := Modulate(RotatingFrame(vd, vq), cosTheta, sinTheta);
      if Readable(electricalAngle, pi) && InUnitCircle(vd, vq) {
        TableOutputApplies(RotatingFrame(vd, vq), electricalAngle, pi, inv);
      }
      Publish(snapshot);
    }

    method Measure(currentPhases: ThreePhase, electricalAngle: real, vd: real, cosTheta: real, sinTheta: real)
      returns (snapshot: Snapshot)
      ensures snapshot == Measured(currentPhases, electricalAngle, vd, cosTheta, sinTheta, inv)
    {
      var idAndIq := ParkForward(ClarkeForward(currentPhases, inv), cosTheta, sinTheta);
      snapshot := Snapshot(currentPhases, electricalAngle, idAndIq.d, idAndIq.q, vd);
    }

    method Modulate(demand: RotatingFrame, cosTheta: real, sinTheta: real) returns (pwm: (int, int, int))
      requires IsInverseRoot3(inv)
      ensures pwm == Output(demand, cosTheta, sinTheta, inv)
      ensures 0 <= pwm.0 <= 100 && 0 <= pwm.1 <= 100 && 0 <= pwm.2 <= 100
    {
      var output := Generate(ParkInverse(demand, cosTheta, sinTheta), inv);
      OutputRange(demand, cosTheta, sinTheta, inv);
      pwm := (Percent(output.a), Percent(output.b), Percent(output.c));
    }

    /** Count the pass; every prescaler-th one writes the slot that is not ready and makes it so. */
    method Publish(snapshot: Snapshot)
      requires Valid()
      modifies this`triggerCounter, this`readyIndex, this`triggers, snapshots
      ensures Valid() && View() == Pass(old(View()), snapshot)
    {
      triggerCounter := triggerCounter + 1;
      if triggerCounter >= prescaler {
        triggerCounter := 0;
        var writeSlot := 1 - readyIndex;
        snapshots[writeSlot] := snapshot;
        readyIndex := writeSlot;
        triggers := triggers + 1;
      }
    }
  }
}
