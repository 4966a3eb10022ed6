/** CAN frames on the wire of the hardware bridge: 16 bytes each, as both ends encode and decode them. */
module CanModel {
  import opened Basics

  type Octet = bv8

  const FRAME_SIZE := 16
  const EFF_FLAG: bv32 := 0x8000_0000
  const ERR_FLAG: bv32 := 0x2000_0000
  const ID_MASK: bv32 := 0x1FFF_FFFF

  type Payload = data: seq<Octet> | |data| <= 8 witness []

  type RawFrame = raw: seq<Octet> | |raw| == FRAME_SIZE witness Zeros(FRAME_SIZE)

  datatype Frame = Frame(extended: bool, id: bv32, data: Payload) {
    /** An 11-bit or 29-bit identifier. */
    predicate Valid() {
      id <= if extended then ID_MASK else 0x7FF
    }
  }

  function Zeros(n: nat): (s: seq<Octet>)
    ensures |s| == n
  {
    seq(n, i => 0)
  }

  function LowByte(word: bv32): Octet {
    (word & 0xFF) as bv8
  }

  /** Least significant byte first. */
  function Split(word: bv32): (bytes: seq<Octet>)
    ensures |bytes| == 4
  {
    [LowByte(word), LowByte(word >> 8), LowByte(word >> 16), LowByte(word >> 24)]
  }

  function Join(a: Octet, b: Octet, c: Octet, d: Octet): bv32 {
    (a as bv32) | ((b as bv32) << 8) | ((c as bv32) << 16) | ((d as bv32) << 24)
  }

  lemma JoinSplit(word: bv32)
    ensures var s := Split(word); Join(s[0], s[1], s[2], s[3]) == word
  {
  }

  lemma BelowMask(id: bv32)
    requires id <= ID_MASK
    ensures id & 0xE000_0000 == 0
  {
  }

  /** The flags of an identifier as it is. */
  lemma Plain(id: bv32)
    requires id & 0xE000_0000 == 0
    ensures id & ERR_FLAG == 0 && id & EFF_FLAG == 0 && id & ID_MASK == id
  {
  }

  lemma MarkedErr(id: bv32)
    ensures (id | EFF_FLAG) & ERR_FLAG == id & ERR_FLAG
  {
  }

  lemma MarkedEff(id: bv32)
    ensures (id | EFF_FLAG) & EFF_FLAG != 0
  {
  }

  lemma MarkedId(id: bv32)
    ensures (id | EFF_FLAG) & ID_MASK == id & ID_MASK
  {
  }

  lemma Length(n: nat)
    requires n <= 8
    ensures Dlc(LengthOctet(n)) == n
  {
  }

  function LengthOctet(n: nat): Octet
    requires n <= 8
  {
    n as bv8
  }

  function Dlc(octet: Octet): nat {
    if octet > 8 then 8 else octet as nat
  }

  // ---------------------------------------------------------------------------
  // The client's codec
  // ---------------------------------------------------------------------------

  function CanId(f: Frame): bv32 {
    if f.extended then f.id | EFF_FLAG else f.id
  }

  function ClientEncode(f: Frame): RawFrame {
    var n := |f.data|;
    Split(CanId(f)) + [LengthOctet(n), 0, 0, 0] + f.data + Zeros(8 - n)
  }

  function Word(raw: RawFrame): bv32 {
    Join(raw[0], raw[1], raw[2], raw[3])
  }

  /** An error frame is malformed. */
  function ClientDecode(raw: RawFrame): Option<Frame> {
    var canId := Word(raw);
    if canId & ERR_FLAG != 0 then None
    else Some(Frame(canId & EFF_FLAG != 0, canId & ID_MASK, raw[8..8 + Dlc(raw[4])]))
  }

  // ---------------------------------------------------------------------------
  // The server's codec
  // ---------------------------------------------------------------------------

  function ServerEncode(f: Frame): RawFrame {
    var padded := f.data + Zeros(8 - |f.data|);
    Split(CanId(f)) + [LengthOctet(|f.data|)] + Zeros(3) + padded
  }

  function ServerDecode(raw: seq<Octet>): Option<Frame> {
    if |raw| != FRAME_SIZE then None
    else
      var (canId, data) := (Word(raw), raw[8..]);
      if canId & ERR_FLAG != 0 then None
      else Some(Frame(canId & EFF_FLAG != 0, canId & ID_MASK, data[..Dlc(raw[4])]))
  }

  // ---------------------------------------------------------------------------
  // Round trips
  // ---------------------------------------------------------------------------

  lemma IdRecovered(f: Frame)
    requires f.id <= ID_MASK
    ensures CanId(f) & ERR_FLAG == 0 && (CanId(f) & EFF_FLAG != 0 <==> f.extended) && CanId(f) & ID_MASK == f.id
  {
    BelowMask(f.id);
    Plain(f.id);
    MarkedErr(f.id);
    MarkedEff(f.id);
    MarkedId(f.id);
  }

  lemma ShortIds(id: bv32)
    requires id <= 0x7FF
    ensures id <= ID_MASK
  {
  }

  /** The fields of an encoded frame. */
  lemma Encoded(f: Frame)
    ensures var raw := ClientEncode(f);
            && Word(raw) == CanId(f) && Dlc(raw[4]) == |f.data| && raw[8..8 + |f.data|] == f.data
  {
    JoinSplit(CanId(f));
    Length(|f.data|);
  }

  /** Both ends write the same 16 bytes. */
  lemma EncodersAgree(f: Frame)
    ensures ClientEncode(f) == ServerEncode(f)
  {
    assert Zeros(3) == [0, 0, 0];
  }

  /** Both ends read the same frame, or the same absence of one, from any 16 bytes. */
  lemma DecodersAgree(raw: RawFrame)
    ensures ClientDecode(raw) == ServerDecode(raw)
  {
    assert raw[8..][..Dlc(raw[4])] == raw[8..8 + Dlc(raw[4])];
  }

  /** Whichever end encodes and whichever decodes, every 11-bit or 29-bit frame comes back. */
  lemma RoundTrip(f: Frame)
    requires f.Valid()
    ensures ClientDecode(ClientEncode(f)) == Some(f) && ClientDecode(ServerEncode(f)) == Some(f)
    ensures ServerDecode(ClientEncode(f)) == Some(f) && ServerDecode(ServerEncode(f)) == Some(f)
  {
    if !f.extended {
      ShortIds(f.id);
    }
    IdRecovered(f);
    Encoded(f);
    EncodersAgree(f);
    DecodersAgree(ClientEncode(f));
  }

  /** The 16 bytes of a frame: the identifier, least significant byte first, with bit 31 for an extended one, the
      number of data bytes, three zeros, and the data filled up with zeros. */
  lemma WireLayout(f: Frame)
    requires f.Valid()
    ensures var raw := ClientEncode(f);
            && (raw[0] as bv32) | ((raw[1] as bv32) << 8) | ((raw[2] as bv32) << 16) | ((raw[3] as bv32) << 24)
               == (if f.extended then f.id | 0x8000_0000 else f.id)
            && raw[4] == |f.data| as bv8 && raw[5] == raw[6] == raw[7] == 0
            && forall i | 0 <= i < 8 :: raw[8 + i] == if i < |f.data| then f.data[i] else 0
  {
    IdBytes(f);
    DataBytes(f);
  }

  lemma IdBytes(f: Frame)
    ensures var raw := ClientEncode(f);
            Join(raw[0], raw[1], raw[2], raw[3]) == if f.extended then f.id | 0x8000_0000 else f.id
  {
    var raw, id := ClientEncode(f), Split(CanId(f));
    assert raw[0] == id[0] && raw[1] == id[1] && raw[2] == id[2] && raw[3] == id[3];
    JoinSplit(CanId(f));
  }

  lemma DataBytes(f: Frame)
    ensures var raw := ClientEncode(f);
            && raw[4] == LengthOctet(|f.data|) && raw[5] == raw[6] == raw[7] == 0
            && forall i | 0 <= i < 8 :: raw[8 + i] == if i < |f.data| then f.data[i] else 0
  {
  }

  /** A frame is read from bits 0 to 28 of its first four bytes, bit 29 makes it an error, bit 31 an extended one; at
      most eight data bytes are taken. */
  lemma WireRead(raw: RawFrame)
    ensures ClientDecode(raw).None? <==> raw[3] & 0x20 != 0
    ensures ClientDecode(raw).Some? ==>
              var f := ClientDecode(raw).value;
              && (f.extended <==> raw[3] & 0x80 != 0)
              && f.id == (raw[0] as bv32) | ((raw[1] as bv32) << 8) | ((raw[2] as bv32) << 16)
                         | (((raw[3] & 0x1F) as bv32) << 24)
              && f.data == raw[8..8 + if raw[4] < 8 then raw[4] as nat else 8]
  {
    TopByte(raw[0], raw[1], raw[2], raw[3]);
  }

  lemma TopByte(a: Octet, b: Octet, c: Octet, d: Octet)
    ensures Join(a, b, c, d) & ERR_FLAG != 0 <==> d & 0x20 != 0
    ensures Join(a, b, c, d) & EFF_FLAG != 0 <==> d & 0x80 != 0
    ensures Join(a, b, c, d) & ID_MASK
         == (a as bv32) | ((b as bv32) << 8) | ((c as bv32) << 16) | (((d & 0x1F) as bv32) << 24)
  {
  }
}
