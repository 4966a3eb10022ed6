/** On-media records: [magic:4][version:1][crc32:4][data], little-endian, and the checks made on reading. */
module RecordLayout {
  import opened Basics

  type U32 = w: int | 0 <= w < 0x1_0000_0000

  const CALIBRATION_MAGIC: U32 := 0xCAFEF00D
  const CONFIG_MAGIC: U32 := 0xDEADBEEF
  const CALIBRATION_VERSION: Byte := 1
  const CONFIG_VERSION: Byte := 2

  const HEADER_SIZE := 9
  const CALIBRATION_SIZE := 60
  const CONFIG_SIZE := 20
  const CALIBRATION_RECORD := HEADER_SIZE + CALIBRATION_SIZE
  const CONFIG_RECORD := HEADER_SIZE + CONFIG_SIZE

  /** Floating-point fields are kept as their 32-bit patterns. */
  datatype CalibrationData = CalibrationData(
    rPhase: U32, lD: U32, lQ: U32,
    currentOffsetA: U32, currentOffsetB: U32, currentOffsetC: U32,
    inertia: U32, frictionCoulomb: U32, frictionViscous: U32,
    encoderZeroOffset: U32,
    kpCurrent: U32, kiCurrent: U32, kpVelocity: U32, kiVelocity: U32,
    encoderDirection: Byte, polePairs: Byte, reserved0: Byte, reserved1: Byte)

  const NO_CALIBRATION := CalibrationData(0, 0, 0, 0, 0, 0, 0, 0, 0, 0, 0, 0, 0, 0, 0, 0, 0, 0)

  datatype ConfigData = ConfigData(
    canNodeId: U32, canBaudrate: U32, telemetryRateHz: U32, encoderResolution: U32,
    defaultControlMode: Byte, reserved0: Byte, reserved1: Byte, reserved2: Byte)

  const DEFAULT_CONFIG := ConfigData(1, 1000000, 100, 4000, 0, 0, 0, 0)

  // ---------------------------------------------------------------------------
  // Words and bytes
  // ---------------------------------------------------------------------------

  function WordBytes(w: U32): (s: seq<Byte>)
    ensures |s| == 4
  {
    [w % 256, w / 256 % 256, w / 256 / 256 % 256, w / 256 / 256 / 256]
  }

  /** The little-endian word at byte offset i. */
  function WordAt(s: seq<Byte>, i: nat): U32
    requires i + 4 <= |s|
  {
    s[i] as int + 0x100 * s[i + 1] as int + 0x1_0000 * s[i + 2] as int + 0x100_0000 * s[i + 3] as int
  }

  function WordsBytes(ws: seq<U32>): (s: seq<Byte>)
    ensures |s| == 4 * |ws|
  {
    if ws == [] then [] else WordsBytes(ws[..|ws| - 1]) + WordBytes(ws[|ws| - 1])
  }

  lemma WordOfBytes(w: U32)
    ensures WordAt(WordBytes(w), 0) == w
  {
  }

  lemma {:induction false} WordsRoundTrip(ws: seq<U32>, i: nat)
    requires i < |ws|
    ensures WordAt(WordsBytes(ws), 4 * i) == ws[i]
  {
    WordOfBytes(ws[|ws| - 1]);
    if i < |ws| - 1 {
      WordsRoundTrip(ws[..|ws| - 1], i);
    }
  }

  // ---------------------------------------------------------------------------
  // Payloads
  // ---------------------------------------------------------------------------

  function CalibrationWords(d: CalibrationData): (ws: seq<U32>)
    ensures |ws| == 14
  {
    [d.rPhase, d.lD, d.lQ, d.currentOffsetA, d.currentOffsetB, d.currentOffsetC,
     d.inertia, d.frictionCoulomb, d.frictionViscous, d.encoderZeroOffset,
     d.kpCurrent, d.kiCurrent, d.kpVelocity, d.kiVelocity]
  }

  function CalibrationBytes(d: CalibrationData): (s: seq<Byte>)
    ensures |s| == CALIBRATION_SIZE
  {
    WordsBytes(CalibrationWords(d)) + [d.encoderDirection, d.polePairs, d.reserved0, d.reserved1]
  }

  function CalibrationFrom(s: seq<Byte>): CalibrationData
    requires |s| == CALIBRATION_SIZE
  {
    CalibrationData(WordAt(s, 0), WordAt(s, 4), WordAt(s, 8), WordAt(s, 12), WordAt(s, 16), WordAt(s, 20),
                    WordAt(s, 24), WordAt(s, 28), WordAt(s, 32), WordAt(s, 36),
                    WordAt(s, 40), WordAt(s, 44), WordAt(s, 48), WordAt(s, 52),
                    s[56], s[57], s[58], s[59])
  }

  function ConfigWords(d: ConfigData): (ws: seq<U32>)
    ensures |ws| == 4
  {
    [d.canNodeId, d.canBaudrate, d.telemetryRateHz, d.encoderResolution]
  }

  function ConfigBytes(d: ConfigData): (s: seq<Byte>)
    ensures |s| == CONFIG_SIZE
  {
    WordsBytes(ConfigWords(d)) + [d.defaultControlMode, d.reserved0, d.reserved1, d.reserved2]
  }

  function ConfigFrom(s: seq<Byte>): ConfigData
    requires |s| == CONFIG_SIZE
  {
    ConfigData(WordAt(s, 0), WordAt(s, 4), WordAt(s, 8), WordAt(s, 12), s[16], s[17], s[18], s[19])
  }

  lemma WordsPrefix(ws: seq<U32>, tail: seq<Byte>, i: nat)
    requires i < |ws|
    ensures 4 * i + 4 <= |WordsBytes(ws) + tail|
    ensures WordAt(WordsBytes(ws) + tail, 4 * i) == ws[i]
  {
    WordsRoundTrip(ws, i);
  }

  lemma CalibrationRoundTrip(d: CalibrationData)
    ensures CalibrationFrom(CalibrationBytes(d)) == d
  {
    var ws, tail := CalibrationWords(d), [d.encoderDirection, d.polePairs, d.reserved0, d.reserved1];
    forall i: nat | i < 14 ensures WordAt(CalibrationBytes(d), 4 * i) == ws[i] {
      WordsPrefix(ws, tail, i);
    }
    var s := CalibrationBytes(d);
    assert WordAt(s, 4 * 0) == ws[0] && WordAt(s, 4 * 1) == ws[1] && WordAt(s, 4 * 2) == ws[2];
    assert WordAt(s, 4 * 3) == ws[3] && WordAt(s, 4 * 4) == ws[4] && WordAt(s, 4 * 5) == ws[5];
    assert WordAt(s, 4 * 6) == ws[6] && WordAt(s, 4 * 7) == ws[7] && WordAt(s, 4 * 8) == ws[8];
    assert WordAt(s, 4 * 9) == ws[9] && WordAt(s, 4 * 10) == ws[10] && WordAt(s, 4 * 11) == ws[11];
    assert WordAt(s, 4 * 12) == ws[12] && WordAt(s, 4 * 13) == ws[13];
  }

  lemma ConfigRoundTrip(d: ConfigData)
    ensures ConfigFrom(ConfigBytes(d)) == d
  {
    var ws, tail := ConfigWords(d), [d.defaultControlMode, d.reserved0, d.reserved1, d.reserved2];
    WordsPrefix(ws, tail, 0);
    WordsPrefix(ws, tail, 1);
    WordsPrefix(ws, tail, 2);
    WordsPrefix(ws, tail, 3);
  }

  // ---------------------------------------------------------------------------
  // Records
  // ---------------------------------------------------------------------------

  /** The checksum is a parameter: any function of the data bytes will do. */
  type Checksum = seq<Byte> -> U32

  function Record(crc: Checksum, magic: U32, version: Byte, data: seq<Byte>): (s: seq<Byte>)
    ensures |s| == HEADER_SIZE + |data|
  {
    WordBytes(magic) + [version] + WordBytes(crc(data)) + data
  }

  function Magic(s: seq<Byte>): U32
    requires |s| >= HEADER_SIZE
  {
    WordAt(s, 0)
  }

  function Version(s: seq<Byte>): Byte
    requires |s| >= HEADER_SIZE
  {
    s[4]
  }

  function StoredCrc(s: seq<Byte>): U32
    requires |s| >= HEADER_SIZE
  {
    WordAt(s, 5)
  }

  lemma RecordFields(crc: Checksum, magic: U32, version: Byte, data: seq<Byte>)
    ensures var s := Record(crc, magic, version, data);
            Magic(s) == magic && Version(s) == version && StoredCrc(s) == crc(data) && s[HEADER_SIZE..] == data
  {
    var s := Record(crc, magic, version, data);
    WordOfBytes(magic);
    WordOfBytes(crc(data));
    assert s[0..4] == WordBytes(magic) && s[5..9] == WordBytes(crc(data));
    assert WordAt(s, 0) == WordAt(s[0..4], 0) && WordAt(s, 5) == WordAt(s[5..9], 0);
  }

  datatype NvmStatus = Ok | InvalidData | VersionMismatch | WriteFailed | HardwareFault

  /** What a calibration load makes of the bytes it read. */
  function LoadCalibrationStatus(crc: Checksum, s: seq<Byte>): NvmStatus
    requires |s| == CALIBRATION_RECORD
  {
    if Magic(s) != CALIBRATION_MAGIC then InvalidData
    else if Version(s) != CALIBRATION_VERSION then VersionMismatch
    else if crc(s[HEADER_SIZE..]) != StoredCrc(s) then InvalidData
    else Ok
  }

  /** What a validity check makes of them. */
  predicate CalibrationValid(crc: Checksum, s: seq<Byte>)
    requires |s| == CALIBRATION_RECORD
  {
    if Magic(s) != CALIBRATION_MAGIC || Version(s) != CALIBRATION_VERSION then false
    else crc(s[HEADER_SIZE..]) == StoredCrc(s)
  }

  /** The calibration a region decodes to, if any. */
  function DecodeCalibration(crc: Checksum, s: seq<Byte>): Option<CalibrationData>
    requires |s| == CALIBRATION_RECORD
  {
    if LoadCalibrationStatus(crc, s) == Ok then Some(CalibrationFrom(s[HEADER_SIZE..])) else None
  }

  /** The configuration a region decodes to: anything unreadable counts as the defaults. */
  function DecodeConfig(crc: Checksum, s: seq<Byte>): ConfigData
    requires |s| == CONFIG_RECORD
  {
    if Magic(s) != CONFIG_MAGIC || Version(s) != CONFIG_VERSION then DEFAULT_CONFIG
    else if crc(s[HEADER_SIZE..]) != StoredCrc(s) then DEFAULT_CONFIG
    else ConfigFrom(s[HEADER_SIZE..])
  }

  function CalibrationRecord(crc: Checksum, d: CalibrationData): (s: seq<Byte>)
    ensures |s| == CALIBRATION_RECORD
  {
    Record(crc, CALIBRATION_MAGIC, CALIBRATION_VERSION, CalibrationBytes(d))
  }

  function ConfigRecord(crc: Checksum, d: ConfigData): (s: seq<Byte>)
    ensures |s| == CONFIG_RECORD
  {
    Record(crc, CONFIG_MAGIC, CONFIG_VERSION, ConfigBytes(d))
  }

  /** A calibration record decodes to exactly the data it was made from, for every checksum. */
  lemma DecodeCalibrationRecord(crc: Checksum, d: CalibrationData)
    ensures DecodeCalibration(crc, CalibrationRecord(crc, d)) == Some(d)
  {
    RecordFields(crc, CALIBRATION_MAGIC, CALIBRATION_VERSION, CalibrationBytes(d));
    CalibrationRoundTrip(d);
  }

  lemma DecodeConfigRecord(crc: Checksum, d: ConfigData)
    ensures DecodeConfig(crc, ConfigRecord(crc, d)) == d
  {
    RecordFields(crc, CONFIG_MAGIC, CONFIG_VERSION, ConfigBytes(d));
    ConfigRoundTrip(d);
  }

  /** The validity check says yes exactly when a load of the same bytes would succeed. */
  lemma ValidIffLoadable(crc: Checksum, s: seq<Byte>)
    requires |s| == CALIBRATION_RECORD
    ensures CalibrationValid(crc, s) <==> LoadCalibrationStatus(crc, s) == Ok
  {
  }

  /** Erased bytes are never a valid calibration and always the default configuration. */
  lemma ErasedIsInvalid(crc: Checksum)
    ensures DecodeCalibration(crc, seq(CALIBRATION_RECORD, _ => 0xFF)) == None
    ensures DecodeConfig(crc, seq(CONFIG_RECORD, _ => 0xFF)) == DEFAULT_CONFIG
  {
  }

  // ---------------------------------------------------------------------------
  // Byte by byte
  // ---------------------------------------------------------------------------

  /** The word w lies at byte offset i, least significant byte first. */
  predicate LiesAt(s: seq<Byte>, i: nat, w: U32) {
    i + 4 <= |s| && s[i] as int + 256 * (s[i + 1] as int + 256 * (s[i + 2] as int + 256 * s[i + 3] as int)) == w
  }

  predicate HeaderLies(s: seq<Byte>, magic: U32, version: Byte, crc: Checksum) {
    && LiesAt(s, 0, magic) && |s| >= 9 && s[4] == version && LiesAt(s, 5, crc(s[9..]))
  }

  lemma HeaderAt(crc: Checksum, magic: U32, version: Byte, data: seq<Byte>)
    ensures var s := Record(crc, magic, version, data); HeaderLies(s, magic, version, crc) && s[9..] == data
  {
    RecordFields(crc, magic, version, data);
  }

  lemma WordLies(s: seq<Byte>, data: seq<Byte>, i: nat, w: U32)
    requires |s| >= 9 && s[9..] == data && i + 4 <= |data| && WordAt(data, i) == w
    ensures LiesAt(s, 9 + i, w)
  {
    assert data[i] == s[9 + i] && data[i + 1] == s[10 + i] && data[i + 2] == s[11 + i] && data[i + 3] == s[12 + i];
  }

  /** The calibration record on the medium. */
  lemma CalibrationLayout(crc: Checksum, d: CalibrationData)
    ensures var s := CalibrationRecord(crc, d);
            && |s| == 69 && HeaderLies(s, 0xCAFEF00D, 1, crc)
            && LiesAt(s, 9, d.rPhase) && LiesAt(s, 13, d.lD) && LiesAt(s, 17, d.lQ)
            && LiesAt(s, 21, d.currentOffsetA) && LiesAt(s, 25, d.currentOffsetB) && LiesAt(s, 29, d.currentOffsetC)
            && LiesAt(s, 33, d.inertia) && LiesAt(s, 37, d.frictionCoulomb) && LiesAt(s, 41, d.frictionViscous)
            && LiesAt(s, 45, d.encoderZeroOffset) && LiesAt(s, 49, d.kpCurrent) && LiesAt(s, 53, d.kiCurrent)
            && LiesAt(s, 57, d.kpVelocity) && LiesAt(s, 61, d.kiVelocity)
            && s[65] == d.encoderDirection && s[66] == d.polePairs && s[67] == d.reserved0 && s[68] == d.reserved1
  {
    var s, data, ws := CalibrationRecord(crc, d), CalibrationBytes(d), CalibrationWords(d);
    HeaderAt(crc, CALIBRATION_MAGIC, CALIBRATION_VERSION, data);
    forall i: nat | i < 14 ensures LiesAt(s, 9 + 4 * i, ws[i]) {
      WordsPrefix(ws, [d.encoderDirection, d.polePairs, d.reserved0, d.reserved1], i);
      WordLies(s, data, 4 * i, ws[i]);
    }
    assert LiesAt(s, 9 + 4 * 0, ws[0]) && LiesAt(s, 9 + 4 * 1, ws[1]) && LiesAt(s, 9 + 4 * 2, ws[2]);
    assert LiesAt(s, 9 + 4 * 3, ws[3]) && LiesAt(s, 9 + 4 * 4, ws[4]) && LiesAt(s, 9 + 4 * 5, ws[5]);
    assert LiesAt(s, 9 + 4 * 6, ws[6]) && LiesAt(s, 9 + 4 * 7, ws[7]) && LiesAt(s, 9 + 4 * 8, ws[8]);
    assert LiesAt(s, 9 + 4 * 9, ws[9]) && LiesAt(s, 9 + 4 * 10, ws[10]) && LiesAt(s, 9 + 4 * 11, ws[11]);
    assert LiesAt(s, 9 + 4 * 12, ws[12]) && LiesAt(s, 9 + 4 * 13, ws[13]);
    LastBytes(s, data, d);
  }

  lemma LastBytes(s: seq<Byte>, data: seq<Byte>, d: CalibrationData)
    requires |s| == 69 && s[9..] == data && data == CalibrationBytes(d)
    ensures s[65] == d.encoderDirection && s[66] == d.polePairs && s[67] == d.reserved0 && s[68] == d.reserved1
  {
    assert s[65] == data[56] && s[66] == data[57] && s[67] == data[58] && s[68] == data[59];
  }

  /** The configuration record on the medium. */
  lemma ConfigLayout(crc: Checksum, d: ConfigData)
    ensures var s := ConfigRecord(crc, d);
            && |s| == 29 && HeaderLies(s, 0xDEADBEEF, 2, crc)
            && LiesAt(s, 9, d.canNodeId) && LiesAt(s, 13, d.canBaudrate)
            && LiesAt(s, 17, d.telemetryRateHz) && LiesAt(s, 21, d.encoderResolution)
            && s[25] == d.defaultControlMode
            && s[26] == d.reserved0 && s[27] == d.reserved1 && s[28] == d.reserved2
  {
    var s, data, ws := ConfigRecord(crc, d), ConfigBytes(d), ConfigWords(d);
    HeaderAt(crc, CONFIG_MAGIC, CONFIG_VERSION, data);
    forall i: nat | i < 4 ensures LiesAt(s, 9 + 4 * i, ws[i]) {
      WordsPrefix(ws, [d.defaultControlMode, d.reserved0, d.reserved1, d.reserved2], i);
      WordLies(s, data, 4 * i, ws[i]);
    }
    assert LiesAt(s, 9 + 4 * 0, ws[0]) && LiesAt(s, 9 + 4 * 1, ws[1]);
    assert LiesAt(s, 9 + 4 * 2, ws[2]) && LiesAt(s, 9 + 4 * 3, ws[3]);
    assert s[25] == data[16] && s[26] == data[17] && s[27] == data[18] && s[28] == data[19];
  }

  /** What a load says of the bytes it reads: wrong data for another magic or checksum, a version mismatch for the
      right magic and another version. */
  lemma StatusMeans(crc: Checksum, s: seq<Byte>)
    requires |s| == 69
    ensures var status := LoadCalibrationStatus(crc, s);
            && (status == Ok <==> HeaderLies(s, 0xCAFEF00D, 1, crc))
            && (status == VersionMismatch <==> LiesAt(s, 0, 0xCAFEF00D) && s[4] != 1)
            && (status == InvalidData <==>
                  !LiesAt(s, 0, 0xCAFEF00D) || (s[4] == 1 && !LiesAt(s, 5, crc(s[9..]))))
  {
  }

  /** A readable configuration has its own magic and version; anything else counts as node 1 at a megabit, telemetry at
      100 Hz, an encoder of 4000 steps and torque mode. */
  lemma DefaultsMean(crc: Checksum, s: seq<Byte>)
    requires |s| == 29
    ensures !HeaderLies(s, 0xDEADBEEF, 2, crc) ==>
              DecodeConfig(crc, s) == ConfigData(1, 1000000, 100, 4000, 0, 0, 0, 0)
  {
  }
}
