/** Regions of one EEPROM: address mapping, erasing, and why disjoint regions cannot disturb each other. */
module NvmRegions {
  import opened Basics

  const MAX_REGION_SIZE := 256

  datatype Region = Region(base: nat, size: nat)
  {
    /** What the constructor of a region asserts of an EEPROM with this many bytes. */
    predicate Fits(eepromSize: nat) {
      size <= MAX_REGION_SIZE && size <= eepromSize && base <= eepromSize - size
    }

    predicate Disjoint(other: Region) {
      base + size <= other.base || other.base + other.size <= base
    }
  }

  /** The first n bytes of a region. */
  function ReadAt(medium: seq<Byte>, r: Region, n: nat): (s: seq<Byte>)
    requires r.Fits(|medium|) && n <= r.size
    ensures |s| == n
  {
    medium[r.base..r.base + n]
  }

  /** The medium after a write to the front of a region. */
  function WriteAt(medium: seq<Byte>, r: Region, data: seq<Byte>): (m: seq<Byte>)
    requires r.Fits(|medium|) && |data| <= r.size
    ensures |m| == |medium|
    ensures forall i | 0 <= i < |m| ::
              m[i] == if r.base <= i < r.base + |data| then data[i - r.base] else medium[i]
  {
    medium[..r.base] + data + medium[r.base + |data|..]
  }

  function Erased(n: nat): seq<Byte> {
    seq(n, _ => 0xFF)
  }

  function EraseAt(medium: seq<Byte>, r: Region): (m: seq<Byte>)
    requires r.Fits(|medium|)
    ensures |m| == |medium|
  {
    WriteAt(medium, r, Erased(r.size))
  }

  lemma ReadBack(medium: seq<Byte>, r: Region, data: seq<Byte>)
    requires r.Fits(|medium|) && |data| <= r.size
    ensures ReadAt(WriteAt(medium, r, data), r, |data|) == data
  {
  }

  lemma Undisturbed(medium: seq<Byte>, r: Region, data: seq<Byte>, other: Region, n: nat)
    requires r.Fits(|medium|) && other.Fits(|medium|) && r.Disjoint(other)
    requires |data| <= r.size && n <= other.size
    ensures ReadAt(WriteAt(medium, r, data), other, n) == ReadAt(medium, other, n)
  {
  }

  /** The EEPROM behind the regions. */
  class Eeprom {
    const bytes: array<Byte>

    constructor (size: nat)
      ensures bytes.Length == size && fresh(bytes)
    {
      bytes := new Byte[size];
    }

    method WriteBuffer(data: array<Byte>, n: nat, address: nat)
      requires n <= data.Length && address + n <= bytes.Length && data != bytes
      modifies bytes
      ensures forall i | 0 <= i < bytes.Length ::
                bytes[i] == if address <= i < address + n then data[i - address] else old(bytes[i])
    {
      for k := 0 to n
        invariant forall i | 0 <= i < bytes.Length ::
                    bytes[i] == if address <= i < address + k then data[i - address] else old(bytes[i])
      {
        bytes[address + k] := data[k];
      }
    }

    method ReadBuffer(data: array<Byte>, address: nat)
      requires address + data.Length <= bytes.Length && data != bytes
      modifies data
      ensures data[..] == bytes[address..address + data.Length]
    {
      for k := 0 to data.Length
        invariant data[..k] == bytes[address..address + k]
      {
        data[k] := bytes[address + k];
      }
    }
  }

  /** One region: a write or erase takes effect on the shared medium, a read fills the caller's buffer. */
  class NvmEepromRegion {
    const eeprom: Eeprom
    const region: Region
    const eraseBuffer: array<Byte>

    ghost predicate Valid()
      reads eraseBuffer
    {
      && region.Fits(eeprom.bytes.Length)
      && eraseBuffer.Length == MAX_REGION_SIZE && eraseBuffer != eeprom.bytes
      && forall i | 0 <= i < MAX_REGION_SIZE :: eraseBuffer[i] == 0xFF
    }

    constructor (eeprom: Eeprom, region: Region)
      requires region.Fits(eeprom.bytes.Length)
      ensures Valid() && fresh(eraseBuffer)
      ensures this.eeprom == eeprom && this.region == region
    {
      this.eeprom := eeprom;
      this.region := region;
      eraseBuffer := new Byte[MAX_REGION_SIZE](_ => 0xFF);
    }

    method Write(data: array<Byte>)
      requires Valid() && data.Length <= region.size && data != eeprom.bytes
      modifies eeprom.bytes
      ensures Valid() && eeprom.bytes[..] == WriteAt(old(eeprom.bytes[..]), region, data[..])
    {
      eeprom.WriteBuffer(data, data.Length, region.base);
    }

    method Read(data: array<Byte>)
      requires Valid() && data.Length <= region.size && data != eeprom.bytes && data != eraseBuffer
      modifies data
      ensures Valid() && data[..] == ReadAt(eeprom.bytes[..], region, data.Length)
    {
      eeprom.ReadBuffer(data, region.base);
    }

    method Erase()
      requires Valid()
      modifies eeprom.bytes
      ensures Valid() && eeprom.bytes[..] == EraseAt(old(eeprom.bytes[..]), region)
    {
      eeprom.WriteBuffer(eraseBuffer, region.size, region.base);
    }
  }
}
