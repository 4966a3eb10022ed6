/** The asynchronous storage service as a value: single-slot callbacks, chains of region operations in
    flight, and the medium they act on. A region operation takes effect when it completes. */
module StorageModel {
  import opened Basics
  import opened RecordLayout
  import opened NvmRegions

  datatype Request =
    | SaveCalibration(calibration: CalibrationData)
    | LoadCalibration
    | InvalidateCalibration
    | CheckCalibration
    | SaveConfig(config: ConfigData)
    | LoadConfig
    | Format

  /** One callback slot each: a second request on the same slot is silently refused. */
  datatype Slot = CalibrationSlot | ConfigSlot | FormatSlot | ValiditySlot

  /** Region operations in flight, named after the chain they belong to. */
  datatype Stage =
    | SaveErase | SaveWrite | SaveRead
    | LoadRead | InvalidateErase | CheckRead
    | ConfigErase | ConfigWrite | ConfigRead
    | ConfigLoadRead
    | FormatCalibration | FormatConfig

  datatype Outcome =
    | Done(status: NvmStatus)
    | CalibrationLoaded(status: NvmStatus, loaded: Option<CalibrationData>)
    | ConfigLoaded(config: ConfigData)
    | Validity(valid: bool)

  datatype Answer = Answer(token: nat, outcome: Outcome)

  datatype Device = Device(crc: Checksum, calibration: Region, config: Region, size: nat)
  {
    ghost predicate Valid() {
      && calibration.Fits(size) && config.Fits(size) && calibration.Disjoint(config)
      && CALIBRATION_RECORD <= calibration.size && CONFIG_RECORD <= config.size
    }
  }

  /** The callbacks, each the number of the request it answers. */
  datatype Slots = Slots(
    onCalibration: Option<nat>, onConfig: Option<nat>, onFormat: Option<nat>, onValidity: Option<nat>)
  {
    function Of(slot: Slot): Option<nat> {
      match slot
      case CalibrationSlot => onCalibration
      case ConfigSlot => onConfig
      case FormatSlot => onFormat
      case ValiditySlot => onValidity
    }

    function Set(slot: Slot, holder: Option<nat>): Slots {
      match slot
      case CalibrationSlot => this.(onCalibration := holder)
      case ConfigSlot => this.(onConfig := holder)
      case FormatSlot => this.(onFormat := holder)
      case ValiditySlot => this.(onValidity := holder)
    }
  }

  datatype Nvm = Nvm(
    medium: seq<Byte>,
    calibrationBuffer: seq<Byte>, configBuffer: seq<Byte>,
    slots: Slots, flight: multiset<Stage>)
  {
    ghost predicate Shape(dev: Device) {
      && dev.Valid() && |medium| == dev.size
      && |calibrationBuffer| == CALIBRATION_RECORD && |configBuffer| == CONFIG_RECORD
    }

    function Holder(slot: Slot): Option<nat> {
      slots.Of(slot)
    }

    /** The bytes of the two records as they are on the medium. */
    ghost function CalibrationRegion(dev: Device): (s: seq<Byte>)
      requires Shape(dev)
      ensures |s| == CALIBRATION_RECORD
    {
      ReadAt(medium, dev.calibration, CALIBRATION_RECORD)
    }

    ghost function ConfigRegion(dev: Device): (s: seq<Byte>)
      requires Shape(dev)
      ensures |s| == CONFIG_RECORD
    {
      ReadAt(medium, dev.config, CONFIG_RECORD)
    }

    /** The calibration the medium holds at this instant. */
    ghost function Stored(dev: Device): Option<CalibrationData>
      requires Shape(dev)
    {
      DecodeCalibration(dev.crc, CalibrationRegion(dev))
    }

    ghost function StoredConfig(dev: Device): ConfigData
      requires Shape(dev)
    {
      DecodeConfig(dev.crc, ConfigRegion(dev))
    }
  }

  function SlotOf(r: Request): Slot {
    match r
    case CheckCalibration => ValiditySlot
    case SaveConfig(_) => ConfigSlot
    case LoadConfig => ConfigSlot
    case Format => FormatSlot
    case _ => CalibrationSlot
  }

  function FirstStage(r: Request): Stage {
    match r
    case SaveCalibration(_) => SaveErase
    case LoadCalibration => LoadRead
    case InvalidateCalibration => InvalidateErase
    case CheckCalibration => CheckRead
    case SaveConfig(_) => ConfigErase
    case LoadConfig => ConfigLoadRead
    case Format => FormatCalibration
  }

  predicate Busy(n: Nvm, r: Request) {
    n.Holder(SlotOf(r)).Some?
  }

  /** Accept a request, or refuse it without a trace when its slot is taken. */
  ghost function Submit(dev: Device, n: Nvm, token: nat, r: Request): (m: Nvm)
    requires n.Shape(dev)
    ensures m.Shape(dev) && m.medium == n.medium
  {
    if Busy(n, r) then n
    else
      var m := n.(slots := n.slots.Set(SlotOf(r), Some(token)), flight := n.flight + multiset{FirstStage(r)});
      match r
      case SaveCalibration(d) => m.(calibrationBuffer := CalibrationRecord(dev.crc, d))
      case SaveConfig(d) => m.(configBuffer := ConfigRecord(dev.crc, d))
      case _ => m
  }

  /** A faulty device may leave other bytes in a region than the ones it was given. */
  function Worn(medium: seq<Byte>, r: Region, fault: Option<seq<Byte>>): (m: seq<Byte>)
    requires r.Fits(|medium|)
    ensures |m| == |medium|
  {
    if fault.Some? && |fault.value| <= r.size then WriteAt(medium, r, fault.value) else medium
  }

  /** What the completing operation does to the medium. */
  function Effect(dev: Device, n: Nvm, stage: Stage, fault: Option<seq<Byte>>): (m: seq<Byte>)
    requires n.Shape(dev)
    ensures |m| == |n.medium|
  {
    match stage
    case SaveErase => Worn(EraseAt(n.medium, dev.calibration), dev.calibration, fault)
    case InvalidateErase => Worn(EraseAt(n.medium, dev.calibration), dev.calibration, fault)
    case FormatCalibration => Worn(EraseAt(n.medium, dev.calibration), dev.calibration, fault)
    case SaveWrite => Worn(WriteAt(n.medium, dev.calibration, n.calibrationBuffer), dev.calibration, fault)
    case ConfigErase => Worn(EraseAt(n.medium, dev.config), dev.config, fault)
    case FormatConfig => Worn(EraseAt(n.medium, dev.config), dev.config, fault)
    case ConfigWrite => Worn(WriteAt(n.medium, dev.config, n.configBuffer), dev.config, fault)
    case _ => n.medium
  }

  function NextStage(stage: Stage): Option<Stage> {
    match stage
    case SaveErase => Some(SaveWrite)
    case SaveWrite => Some(SaveRead)
    case ConfigErase => Some(ConfigWrite)
    case ConfigWrite => Some(ConfigRead)
    case FormatCalibration => Some(FormatConfig)
    case _ => None
  }

  function StageSlot(stage: Stage): Slot {
    match stage
    case CheckRead => ValiditySlot
    case ConfigErase => ConfigSlot
    case ConfigWrite => ConfigSlot
    case ConfigRead => ConfigSlot
    case ConfigLoadRead => ConfigSlot
    case FormatCalibration => FormatSlot
    case FormatConfig => FormatSlot
    case _ => CalibrationSlot
  }

  /** What the last stage of a chain tells its caller, from the bytes on the medium. */
  ghost function Verdict(dev: Device, n: Nvm, stage: Stage): Outcome
    requires n.Shape(dev)
  {
    match stage
    case SaveRead => Done(if n.CalibrationRegion(dev) == n.calibrationBuffer then Ok else WriteFailed)
    case ConfigRead => Done(if n.ConfigRegion(dev) == n.configBuffer then Ok else WriteFailed)
    case LoadRead =>
      CalibrationLoaded(LoadCalibrationStatus(dev.crc, n.CalibrationRegion(dev)), n.Stored(dev))
    case CheckRead => Validity(CalibrationValid(dev.crc, n.CalibrationRegion(dev)))
    case ConfigLoadRead => ConfigLoaded(n.StoredConfig(dev))
    case _ => Done(Ok)
  }

  function FlightAfter(flight: multiset<Stage>, stage: Stage): multiset<Stage> {
    match NextStage(stage)
    case Some(next) => flight - multiset{stage} + multiset{next}
    case None => flight - multiset{stage}
  }

  function SlotsAfter(slots: Slots, stage: Stage): Slots {
    if NextStage(stage).Some? then slots else slots.Set(StageSlot(stage), None)
  }

  /** The chain goes on with its next operation, or its slot is cleared. */
  function Advance(n: Nvm, stage: Stage): Nvm {
    n.(slots := SlotsAfter(n.slots, stage), flight := FlightAfter(n.flight, stage))
  }

  /** A region operation completes: it takes effect, then either the next one of its chain is started or
      the slot is cleared and its callback is called. */
  ghost function Complete(dev: Device, n: Nvm, stage: Stage, fault: Option<seq<Byte>>): (r: (Nvm, seq<Answer>))
    requires n.Shape(dev)
    ensures r.0.Shape(dev)
  {
    if stage !in n.flight then (n, [])
    else
      var m := n.(medium := Effect(dev, n, stage, fault));
      (Advance(m, stage),
       match (NextStage(stage), n.Holder(StageSlot(stage)))
       case (None, Some(token)) => [Answer(token, Verdict(dev, m, stage))]
       case _ => [])
  }
}
