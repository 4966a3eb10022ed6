/** The storage service as it is implemented: record buffers filled in place and callback slots that are
    cleared when called. Region operations asked for are listed in flight; Finish lets one complete. */
module NonVolatileMemoryClass {
  import opened Basics
  import opened RecordLayout
  import opened NvmRegions
  import opened StorageModel

  class NonVolatileMemoryImpl {
    const crc: Checksum
    const calibrationRegion: NvmEepromRegion
    const configRegion: NvmEepromRegion
    const calibrationBuffer: array<Byte>
    const calibrationReadBackBuffer: array<Byte>
    const configBuffer: array<Byte>
    const configReadBackBuffer: array<Byte>
    var onCalibrationDone: Option<nat>
    var onConfigDone: Option<nat>
    var onFormatDone: Option<nat>
    var onIsCalibrationValidDone: Option<nat>
    var flight: multiset<Stage>
    var answers: seq<Answer>

    ghost function Footprint(): set<object>
      reads this
    {
      {this, calibrationRegion.eeprom.bytes, calibrationBuffer, calibrationReadBackBuffer,
       configBuffer, configReadBackBuffer}
    }

    ghost function Dev(): Device {
      Device(crc, calibrationRegion.region, configRegion.region, calibrationRegion.eeprom.bytes.Length)
    }

    ghost function View(): Nvm
      reads Footprint()
    {
      Nvm(calibrationRegion.eeprom.bytes[..], calibrationBuffer[..], configBuffer[..],
          Slots(onCalibrationDone, onConfigDone, onFormatDone, onIsCalibrationValidDone), flight)
    }

    ghost predicate Valid()
      reads Footprint(), calibrationRegion.eraseBuffer, configRegion.eraseBuffer
    {
      && calibrationRegion.Valid() && configRegion.Valid() && calibrationRegion.eeprom == configRegion.eeprom
      && Dev().Valid()
      && calibrationBuffer.Length == calibrationReadBackBuffer.Length == CALIBRATION_RECORD
      && configBuffer.Length == configReadBackBuffer.Length == CONFIG_RECORD
      && calibrationRegion.eraseBuffer !in Footprint() && configRegion.eraseBuffer !in Footprint()
      && calibrationBuffer != calibrationReadBackBuffer && configBuffer != configReadBackBuffer
      && calibrationRegion.eeprom.bytes !in {calibrationBuffer, calibrationReadBackBuffer,
                                             configBuffer, configReadBackBuffer}
    }

    constructor (crc: Checksum, calibrationRegion: NvmEepromRegion, configRegion: NvmEepromRegion)
      requires calibrationRegion.Valid() && configRegion.Valid()
      requires calibrationRegion.eeprom == configRegion.eeprom
      requires calibrationRegion.region.Disjoint(configRegion.region)
      requires CALIBRATION_RECORD <= calibrationRegion.region.size && CONFIG_RECORD <= configRegion.region.size
      requires calibrationRegion.eraseBuffer != configRegion.eeprom.bytes
      requires configRegion.eraseBuffer != configRegion.eeprom.bytes
      ensures Valid() && View().flight == multiset{} && answers == []
      ensures forall s: Slot :: View().Holder(s) == None
      ensures View().medium == old(calibrationRegion.eeprom.bytes[..])
    {
      this.crc := crc;
      this.calibrationRegion := calibrationRegion;
      this.configRegion := configRegion;
      calibrationBuffer := new Byte[CALIBRATION_RECORD](_ => 0);
      calibrationReadBackBuffer := new Byte[CALIBRATION_RECORD](_ => 0);
      configBuffer := new Byte[CONFIG_RECORD](_ => 0);
      configReadBackBuffer := new Byte[CONFIG_RECORD](_ => 0);
      onCalibrationDone, onConfigDone, onFormatDone, onIsCalibrationValidDone := None, None, None, None;
      flight := multiset{};
      answers := [];
    }

    // Requests -----------------------------------------------------------------

    method SaveCalibration(data: CalibrationData, token: nat)
      requires Valid()
      modifies Footprint()
      ensures Valid() && answers == old(answers)
      ensures View() == Submit(Dev(), old(View()), token, StorageModel.SaveCalibration(data))
    {
      if onCalibrationDone.Some? {
        return;
      }
      Fill(calibrationBuffer, CalibrationRecord(crc, data));
      onCalibrationDone := Some(token);
      flight := flight + multiset{SaveErase};
    }

    method LoadCalibration(token: nat)
      requires Valid()
      modifies this
      ensures Valid() && answers == old(answers)
      ensures View() == Submit(Dev(), old(View()), token, StorageModel.LoadCalibration)
    {
      if onCalibrationDone.Some? {
        return;
      }
      onCalibrationDone := Some(token);
      flight := flight + multiset{LoadRead};
    }

    method InvalidateCalibration(token: nat)
      requires Valid()
      modifies this
      ensures Valid() && answers == old(answers)
      ensures View() == Submit(Dev(), old(View()), token, StorageModel.InvalidateCalibration)
    {
      if onCalibrationDone.Some? {
        return;
      }
      onCalibrationDone := Some(token);
      flight := flight + multiset{InvalidateErase};
    }

    method IsCalibrationValid(token: nat)
      requires Valid()
      modifies this
      ensures Valid() && answers == old(answers)
      ensures View() == Submit(Dev(), old(View()), token, CheckCalibration)
    {
      if onIsCalibrationValidDone.Some? {
        return;
      }
      onIsCalibrationValidDone := Some(token);
      flight := flight + multiset{CheckRead};
    }

    method SaveConfig(data: ConfigData, token: nat)
      requires Valid()
      modifies Footprint()
      ensures Valid() && answers == old(answers)
      ensures View() == Submit(Dev(), old(View()), token, StorageModel.SaveConfig(data))
    {
      if onConfigDone.Some? {
        return;
      }
      Fill(configBuffer, ConfigRecord(crc, data));
      onConfigDone := Some(token);
      flight := flight + multiset{ConfigErase};
    }

    method LoadConfig(token: nat)
      requires Valid()
      modifies this
      ensures Valid() && answers == old(answers)
      ensures View() == Submit(Dev(), old(View()), token, StorageModel.LoadConfig)
    {
      if onConfigDone.Some? {
        return;
      }
      onConfigDone := Some(token);
      flight := flight + multiset{ConfigLoadRead};
    }

    method ResetConfigToDefaults(token: nat)
      requires Valid()
      modifies Footprint()
      ensures Valid() && answers == old(answers)
      ensures View() == Submit(Dev(), old(View()), token, StorageModel.SaveConfig(DEFAULT_CONFIG))
    {
      SaveConfig(DEFAULT_CONFIG, token);
    }

    method Format(token: nat)
      requires Valid()
      modifies this
      ensures Valid() && answers == old(answers)
      ensures View() == Submit(Dev(), old(View()), token, StorageModel.Format)
    {
      if onFormatDone.Some? {
        return;
      }
      onFormatDone := Some(token);
      flight := flight + multiset{FormatCalibration};
    }

    // Completions ----------------------------------------------------------------

    /** A region operation in flight completes: it takes effect on the medium, possibly with wrong bytes,
        and the function waiting for it is called. */
    method Finish(stage: Stage, fault: Option<seq<Byte>>)
      requires Valid() && stage in flight && View().Holder(StageSlot(stage)).Some?
      modifies Footprint()
      ensures Valid()
      ensures View() == Complete(Dev(), old(View()), stage, fault).0
      ensures answers == old(answers) + Complete(Dev(), old(View()), stage, fault).1
    {
      if NextStage(stage).Some? {
        FinishLink(stage, fault);
        assert old(answers) + [] == old(answers);
      } else {
        FinishChain(stage, fault);
      }
    }

    method FinishLink(stage: Stage, fault: Option<seq<Byte>>)
      requires Valid() && stage in flight && NextStage(stage).Some?
      modifies Footprint()
      ensures Valid() && answers == old(answers)
      ensures View() == Advance(old(View()).(medium := Effect(Dev(), old(View()), stage, fault)), stage)
    {
      Perform(stage, fault);
      Continue(stage);
    }

    method FinishChain(stage: Stage, fault: Option<seq<Byte>>)
      requires Valid() && stage in flight && NextStage(stage).None? && View().Holder(StageSlot(stage)).Some?
      modifies Footprint()
      ensures Valid()
      ensures var m := old(View()).(medium := Effect(Dev(), old(View()), stage, fault));
              View() == Advance(m, stage)
              && answers == old(answers) +
                   [Answer(m.Holder(StageSlot(stage)).value, Verdict(Dev(), m, stage))]
    {
      Perform(stage, fault);
      Conclude(stage);
    }

    /** The function waiting for an operation starts the next one of its chain... */
    method Continue(stage: Stage)
      requires NextStage(stage).Some?
      modifies this`flight
      ensures flight == FlightAfter(old(flight), stage)
    {
      flight := flight - multiset{stage};
      match stage
      case SaveErase => OnCalibrationErased();
      case SaveWrite => OnCalibrationWritten();
      case ConfigErase => OnConfigErased();
      case ConfigWrite => OnConfigWritten();
      case FormatCalibration => OnCalibrationSectorFormattedDuringFormat();
    }

    ghost function SlotsView(): Slots
      reads this`onCalibrationDone, this`onConfigDone, this`onFormatDone, this`onIsCalibrationValidDone
    {
      Slots(onCalibrationDone, onConfigDone, onFormatDone, onIsCalibrationValidDone)
    }

    /** What the end of a chain finds in the read-back buffers. */
    ghost function Found(stage: Stage): Outcome
      requires calibrationReadBackBuffer.Length == CALIBRATION_RECORD && configReadBackBuffer.Length == CONFIG_RECORD
      reads calibrationBuffer, calibrationReadBackBuffer, configBuffer, configReadBackBuffer
    {
      match stage
      case SaveRead => Done(if calibrationBuffer[..] == calibrationReadBackBuffer[..] then Ok else WriteFailed)
      case ConfigRead => Done(if configBuffer[..] == configReadBackBuffer[..] then Ok else WriteFailed)
      case LoadRead => CalibrationLoaded(LoadCalibrationStatus(crc, calibrationReadBackBuffer[..]),
                                         DecodeCalibration(crc, calibrationReadBackBuffer[..]))
      case CheckRead => Validity(CalibrationValid(crc, calibrationReadBackBuffer[..]))
      case ConfigLoadRead => ConfigLoaded(DecodeConfig(crc, configReadBackBuffer[..]))
      case _ => Done(Ok)
    }

    /** ...or looks at what was read and reports. */
    method Conclude(stage: Stage)
      requires Valid() && NextStage(stage).None? && View().Holder(StageSlot(stage)).Some?
      requires stage in {SaveRead, LoadRead, CheckRead} ==>
                 calibrationReadBackBuffer[..] == View().CalibrationRegion(Dev())
      requires stage in {ConfigRead, ConfigLoadRead} ==>
                 configReadBackBuffer[..] == View().ConfigRegion(Dev())
      modifies this`flight, this`onCalibrationDone, this`onConfigDone, this`onFormatDone,
               this`onIsCalibrationValidDone, this`answers
      ensures View() == Advance(old(View()), stage)
      ensures answers == old(answers) +
                [Answer(old(View()).Holder(StageSlot(stage)).value, Verdict(Dev(), old(View()), stage))]
    {
      ghost var before := View();
      assert Found(stage) == Verdict(Dev(), before, stage);
      flight := flight - multiset{stage};
      Report(stage);
      assert View().medium == before.medium;
    }

    method Report(stage: Stage)
      requires calibrationReadBackBuffer.Length == CALIBRATION_RECORD && configReadBackBuffer.Length == CONFIG_RECORD
      requires NextStage(stage).None? && SlotsView().Of(StageSlot(stage)).Some?
      modifies this`onCalibrationDone, this`onConfigDone, this`onFormatDone, this`onIsCalibrationValidDone, this`answers
      ensures SlotsView() == SlotsAfter(old(SlotsView()), stage)
      ensures answers == old(answers) + [Answer(old(SlotsView()).Of(StageSlot(stage)).value, Found(stage))]
    {
      match stage
      case SaveRead => OnCalibrationReadBack();
      case LoadRead => OnCalibrationReadForLoad();
      case InvalidateErase => CalibrationDone(Done(Ok));
      case CheckRead => OnCalibrationReadForIsValid();
      case ConfigRead => OnConfigReadBack();
      case ConfigLoadRead => OnConfigReadForLoad();
      case FormatConfig => FormatDone(Done(Ok));
    }

    /** The effect of the completing operation on the medium or on a read-back buffer. */
    method Perform(stage: Stage, fault: Option<seq<Byte>>)
      requires Valid()
      modifies calibrationRegion.eeprom.bytes, calibrationReadBackBuffer, configReadBackBuffer
      ensures Valid() && View() == old(View()).(medium := Effect(Dev(), old(View()), stage, fault))
      ensures stage in {SaveRead, LoadRead, CheckRead} ==>
                calibrationReadBackBuffer[..] == View().CalibrationRegion(Dev())
      ensures stage in {ConfigRead, ConfigLoadRead} ==>
                configReadBackBuffer[..] == View().ConfigRegion(Dev())
    {
      if stage in {SaveRead, LoadRead, CheckRead} {
        calibrationRegion.Read(calibrationReadBackBuffer);
      } else if stage in {ConfigRead, ConfigLoadRead} {
        configRegion.Read(configReadBackBuffer);
      } else if stage in {SaveErase, InvalidateErase, FormatCalibration} {
        EraseRegion(calibrationRegion, fault);
      } else if stage in {ConfigErase, FormatConfig} {
        EraseRegion(configRegion, fault);
      } else if stage == SaveWrite {
        WriteRegion(calibrationRegion, calibrationBuffer, fault);
      } else {
        WriteRegion(configRegion, configBuffer, fault);
      }
    }

    method EraseRegion(region: NvmEepromRegion, fault: Option<seq<Byte>>)
      requires Valid() && region in {calibrationRegion, configRegion}
      modifies calibrationRegion.eeprom.bytes
      ensures Valid()
      ensures View() == old(View()).(medium :=
                Worn(EraseAt(old(View()).medium, region.region), region.region, fault))
    {
      region.Erase();
      Wear(region, fault);
    }

    method WriteRegion(region: NvmEepromRegion, buffer: array<Byte>, fault: Option<seq<Byte>>)
      requires Valid() && region in {calibrationRegion, configRegion}
      requires buffer in {calibrationBuffer, configBuffer} && buffer.Length <= region.region.size
      modifies calibrationRegion.eeprom.bytes
      ensures Valid()
      ensures View() == old(View()).(medium :=
                Worn(WriteAt(old(View()).medium, region.region, old(buffer[..])), region.region, fault))
    {
      region.Write(buffer);
      Wear(region, fault);
    }

    /** A device fault: the region ends up with other bytes. */
    method Wear(region: NvmEepromRegion, fault: Option<seq<Byte>>)
      requires Valid() && region in {calibrationRegion, configRegion}
      modifies calibrationRegion.eeprom.bytes
      ensures Valid() && View() == old(View()).(medium := Worn(old(View()).medium, region.region, fault))
    {
      if fault.Some? && |fault.value| <= region.region.size {
        var bytes := new Byte[|fault.value|](i requires 0 <= i < |fault.value| => fault.value[i]);
        assert bytes[..] == fault.value;
        region.Write(bytes);
      }
    }

    method OnCalibrationErased()
      modifies this`flight
      ensures flight == old(flight) + multiset{SaveWrite}
    {
      flight := flight + multiset{SaveWrite};
    }

    method OnCalibrationWritten()
      modifies this`flight
      ensures flight == old(flight) + multiset{SaveRead}
    {
      flight := flight + multiset{SaveRead};
    }

    method OnCalibrationReadBack()
      requires onCalibrationDone.Some?
      modifies this`onCalibrationDone, this`answers
      ensures onCalibrationDone == None
      ensures answers == old(answers) + [Answer(old(onCalibrationDone).value,
                Done(if calibrationBuffer[..] == calibrationReadBackBuffer[..] then Ok else WriteFailed))]
    {
      if calibrationBuffer[..] == calibrationReadBackBuffer[..] {
        CalibrationDone(Done(Ok));
      } else {
        CalibrationDone(Done(WriteFailed));
      }
    }

    method OnCalibrationReadForLoad()
      requires onCalibrationDone.Some? && calibrationReadBackBuffer.Length == CALIBRATION_RECORD
      modifies this`onCalibrationDone, this`answers
      ensures onCalibrationDone == None
      ensures answers == old(answers) + [Answer(old(onCalibrationDone).value,
                CalibrationLoaded(LoadCalibrationStatus(crc, calibrationReadBackBuffer[..]),
                                  DecodeCalibration(crc, calibrationReadBackBuffer[..])))]
    {
      var record := calibrationReadBackBuffer[..];
      if Magic(record) != CALIBRATION_MAGIC {
        CalibrationDone(CalibrationLoaded(InvalidData, None));
        return;
      }
      if Version(record) != CALIBRATION_VERSION {
        CalibrationDone(CalibrationLoaded(VersionMismatch, None));
        return;
      }
      var computed := crc(record[HEADER_SIZE..]);
      if computed != StoredCrc(record) {
        CalibrationDone(CalibrationLoaded(InvalidData, None));
        return;
      }
      CalibrationDone(CalibrationLoaded(Ok, Some(CalibrationFrom(record[HEADER_SIZE..]))));
    }

    method OnCalibrationReadForIsValid()
      requires onIsCalibrationValidDone.Some? && calibrationReadBackBuffer.Length == CALIBRATION_RECORD
      modifies this`onIsCalibrationValidDone, this`answers
      ensures onIsCalibrationValidDone == None
      ensures answers == old(answers) + [Answer(old(onIsCalibrationValidDone).value,
                Validity(CalibrationValid(crc, calibrationReadBackBuffer[..])))]
    {
      var record := calibrationReadBackBuffer[..];
      var token := onIsCalibrationValidDone.value;
      onIsCalibrationValidDone := None;
      if Magic(record) != CALIBRATION_MAGIC || Version(record) != CALIBRATION_VERSION {
        answers := answers + [Answer(token, Validity(false))];
        return;
      }
      var computed := crc(record[HEADER_SIZE..]);
      answers := answers + [Answer(token, Validity(computed == StoredCrc(record)))];
    }

    method OnConfigErased()
      modifies this`flight
      ensures flight == old(flight) + multiset{ConfigWrite}
    {
      flight := flight + multiset{ConfigWrite};
    }

    method OnConfigWritten()
      modifies this`flight
      ensures flight == old(flight) + multiset{ConfigRead}
    {
      flight := flight + multiset{ConfigRead};
    }

    method OnConfigReadBack()
      requires onConfigDone.Some?
      modifies this`onConfigDone, this`answers
      ensures onConfigDone == None
      ensures answers == old(answers) + [Answer(old(onConfigDone).value,
                Done(if configBuffer[..] == configReadBackBuffer[..] then Ok else WriteFailed))]
    {
      if configBuffer[..] == configReadBackBuffer[..] {
        ConfigDone(Done(Ok));
      } else {
        ConfigDone(Done(WriteFailed));
      }
    }

    method OnConfigReadForLoad()
      requires onConfigDone.Some? && configReadBackBuffer.Length == CONFIG_RECORD
      modifies this`onConfigDone, this`answers
      ensures onConfigDone == None
      ensures answers == old(answers) + [Answer(old(onConfigDone).value,
                ConfigLoaded(DecodeConfig(crc, configReadBackBuffer[..])))]
    {
      var record := configReadBackBuffer[..];
      if Magic(record) != CONFIG_MAGIC || Version(record) != CONFIG_VERSION {
        ConfigDone(ConfigLoaded(DEFAULT_CONFIG));
        return;
      }
      var computed := crc(record[HEADER_SIZE..]);
      if computed != StoredCrc(record) {
        ConfigDone(ConfigLoaded(DEFAULT_CONFIG));
        return;
      }
      ConfigDone(ConfigLoaded(ConfigFrom(record[HEADER_SIZE..])));
    }

    method OnCalibrationSectorFormattedDuringFormat()
      modifies this`flight
      ensures flight == old(flight) + multiset{FormatConfig}
    {
      flight := flight + multiset{FormatConfig};
    }

    // Slots: cleared first, then called ------------------------------------------

    method CalibrationDone(outcome: Outcome)
      requires onCalibrationDone.Some?
      modifies this`onCalibrationDone, this`answers
      ensures onCalibrationDone == None
      ensures answers == old(answers) + [Answer(old(onCalibrationDone).value, outcome)]
    {
      var token := onCalibrationDone.value;
      onCalibrationDone := None;
      answers := answers + [Answer(token, outcome)];
    }

    method ConfigDone(outcome: Outcome)
      requires onConfigDone.Some?
      modifies this`onConfigDone, this`answers
      ensures onConfigDone == None
      ensures answers == old(answers) + [Answer(old(onConfigDone).value, outcome)]
    {
      var token := onConfigDone.value;
      onConfigDone := None;
      answers := answers + [Answer(token, outcome)];
    }

    method FormatDone(outcome: Outcome)
      requires onFormatDone.Some?
      modifies this`onFormatDone, this`answers
      ensures onFormatDone == None
      ensures answers == old(answers) + [Answer(old(onFormatDone).value, outcome)]
    {
      var token := onFormatDone.value;
      onFormatDone := None;
      answers := answers + [Answer(token, outcome)];
    }
  }

  method Fill(buffer: array<Byte>, bytes: seq<Byte>)
    requires buffer.Length == |bytes|
    modifies buffer
    ensures buffer[..] == bytes
  {
    for i := 0 to |bytes|
      invariant buffer[..i] == bytes[..i]
    {
      buffer[i] := bytes[i];
    }
  }
}
