/**
 * The binary photo-index record, shared by the browser's image loader and the index sorter,
 * and the machine integer types its fields are stored in.
 *
 * `unsigned` is 32 bits and `short` 16 bits; conversions between them are written out as the
 * two's-complement wrap-arounds the compiler performs.
 */
module IndexFormat {

  const UnsignedModulus: int := 0x1_0000_0000
  const IntMax: int := 0x7FFF_FFFF
  const IntMin: int := -0x8000_0000

  type Unsigned = x: int | 0 <= x < 0x1_0000_0000
  type Int32 = x: int | -0x8000_0000 <= x < 0x8000_0000
  type Short = x: int | -0x8000 <= x < 0x8000
  type UByte = x: int | 0 <= x < 256

  /** An integer converted to `unsigned`: reduced modulo 2^32. */
  function ToUnsigned(x: int): (u: Unsigned)
    ensures 0 <= x < UnsignedModulus ==> u == x
    ensures x < 0 && -UnsignedModulus <= x ==> u == x + UnsignedModulus
  {
    x % UnsignedModulus
  }

  /** An `unsigned` converted to `int`: values from 2^31 up become negative. */
  function ToInt32(u: Unsigned): (x: Int32)
    ensures (x - u) % UnsignedModulus == 0
  {
    if u < 0x8000_0000 then u else u - UnsignedModulus
  }

  /** A `short` read back through `unsigned` and then `int` is the value it started as. */
  lemma ShortThroughUnsigned(s: Short)
    ensures ToInt32(ToUnsigned(s)) == s
    ensures s >= 0 ==> ToUnsigned(s) == s
  {
  }

  /** One thumbnail entry: where its bytes are, which container holds it, and how many bytes. */
  datatype ThumbEntry = ThumbEntry(fileOffset: Unsigned, containerIndex: Unsigned, imageSize: Unsigned)

  const MaxThumbnails: nat := 6

  /** One image of the index, field for field as the index file stores it. */
  datatype ImageData = ImageData(
    width: Int32,
    height: Int32,
    timeOfDay: Unsigned,
    dayOfYear: Short,
    year: Short,
    averageRed: UByte,
    averageGreen: UByte,
    averageBlue: UByte,
    folderIndex: Int32,
    filename: seq<UByte>,
    thumbnails: seq<ThumbEntry>)

  // ---------------------------------------------------------------------------------------
  // The packed container index: the low 3 bits are the size level, the rest the file number

  /** ThumbContainerIndex & 0x07 */
  function SizeLevel(packed: Unsigned): (k: nat)
    ensures k < 8
  {
    packed % 8
  }

  /** ThumbContainerIndex >> 3 */
  function ContainerNumber(packed: Unsigned): (c: nat)
    ensures c < 0x2000_0000
  {
    packed / 8
  }

  /** The packing the indexing tool applies: container number above three bits of size level. */
  function Pack(level: nat, container: nat): int
  {
    container * 8 + level
  }

  /** Decoding then re-packing gives the stored value back. */
  lemma PackOfUnpacked(packed: Unsigned)
    ensures Pack(SizeLevel(packed), ContainerNumber(packed)) == packed
  {
  }

  /** Packing then decoding gives both fields back, for every level and container that fit. */
  lemma UnpackOfPacked(level: nat, container: nat)
    requires level < 8 && container < 0x2000_0000
    ensures 0 <= Pack(level, container) < UnsignedModulus
    ensures SizeLevel(Pack(level, container)) == level
    ensures ContainerNumber(Pack(level, container)) == container
  {
  }
}
