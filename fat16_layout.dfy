/** The on-memory layout of the RAM-disk FAT16 volume: the region addresses, the boot sector's BIOS
    Parameter Block, the FAT's reserved entries and the packed 32-byte directory entry, following
    Microsoft's FAT specification (sections 3.1, 4 and 6). */
module Fat16Layout {
  import opened Words

  /** The fixed physical addresses of the volume's regions. */
  const RAMDISK_BASE: int := 0x100000
  const FAT_TABLE_START: int := 0x100200
  const FAT2_START: int := 0x104200
  const ROOT_DIR_START: int := 0x108200
  const DATA_REGION_START: int := 0x10C200
  /** fat16_init clears the 64 KiB starting at RAMDISK_BASE. */
  const CLEARED_BYTES: int := 0x10000

  const SECTOR_SIZE: int := 512
  const ENTRY_SIZE: int := 32
  const ROOT_ENTRIES: int := 512
  const CLUSTER_SIZE: int := 512
  /** Sectors per FAT, as the boot sector records it. */
  const FAT_SECTORS: int := 32

  /** FAT entry values: a free cluster, the end of a chain, and the media descriptor that FAT[0]
      carries. */
  const FAT_FREE: u16 := 0x0000
  const FAT_EOC: u16 := 0xFFFF
  const FAT_MEDIA: u16 := 0xFFF8

  /** First name byte of a never-used slot and of a deleted one. */
  const FREE_MARK: byte := 0x00
  const DELETED_MARK: byte := 0xE5
  /** The archive attribute, the only one the store sets. */
  const ATTR_ARCHIVE: byte := 0x20
  /** "TXT", the extension every stored file gets. */
  const EXT_TXT: seq<byte> := [0x54, 0x58, 0x54]

  /** Fat16DirEntry, field by field. */
  datatype DirEntry = DirEntry(
    name: seq<byte>,
    ext: seq<byte>,
    attr: byte,
    reserved: byte,
    creationTimeMs: byte,
    creationTime: u16,
    creationDate: u16,
    lastAccessDate: u16,
    clusterHigh: u16,
    mTime: u16,
    mDate: u16,
    firstCluster: u16,
    fileSize: u32)

  /** The two byte arrays have their declared lengths. */
  predicate WellShaped(e: DirEntry)
  {
    |e.name| == 8 && |e.ext| == 3
  }

  /** A slot is free for allocation when its first name byte is 0x00 (never used) or 0xE5 (deleted). */
  predicate IsFree(e: DirEntry)
    requires WellShaped(e)
  {
    e.name[0] == FREE_MARK || e.name[0] == DELETED_MARK
  }

  /** The packed little-endian image of an entry. */
  function Encode(e: DirEntry): (b: seq<byte>)
    requires WellShaped(e)
    ensures |b| == ENTRY_SIZE
    ensures b[..8] == e.name && b[8..11] == e.ext && b[11] == e.attr && b[12] == e.reserved
    ensures b[13] == e.creationTimeMs
    ensures Le16(b, 14) == e.creationTime as int && Le16(b, 16) == e.creationDate as int
    ensures Le16(b, 18) == e.lastAccessDate as int && Le16(b, 20) == e.clusterHigh as int
    ensures Le16(b, 22) == e.mTime as int && Le16(b, 24) == e.mDate as int
    ensures Le16(b, 26) == e.firstCluster as int
    ensures Le32(b, 28) == e.fileSize as int
  {
    var head := e.name + e.ext + [e.attr, e.reserved, e.creationTimeMs];
    var t0 := Bytes16(e.creationTime as int);
    var t1 := Bytes16(e.creationDate as int);
    var t2 := Bytes16(e.lastAccessDate as int);
    var t3 := Bytes16(e.clusterHigh as int);
    var t4 := Bytes16(e.mTime as int);
    var t5 := Bytes16(e.mDate as int);
    var t6 := Bytes16(e.firstCluster as int);
    var t7 := Bytes32(e.fileSize as int);
    var b := head + t0 + t1 + t2 + t3 + t4 + t5 + t6 + t7;
    assert b[14..16] == t0 && b[16..18] == t1 && b[18..20] == t2 && b[20..22] == t3;
    assert b[22..24] == t4 && b[24..26] == t5 && b[26..28] == t6 && b[28..32] == t7;
    assert b[..8] == e.name && b[8..11] == e.ext;
    b
  }

  /** Reading a 32-byte record as an entry. */
  function Decode(b: seq<byte>): (e: DirEntry)
    requires |b| == ENTRY_SIZE
    ensures WellShaped(e)
  {
    DirEntry(b[..8], b[8..11], b[11], b[12], b[13],
             Le16(b, 14) as u16, Le16(b, 16) as u16, Le16(b, 18) as u16, Le16(b, 20) as u16,
             Le16(b, 22) as u16, Le16(b, 24) as u16, Le16(b, 26) as u16, Le32(b, 28) as u32)
  }

  /** Decoding an encoded entry gives the entry back. */
  lemma DecodeEncode(e: DirEntry)
    requires WellShaped(e)
    ensures Decode(Encode(e)) == e
  {
  }

  /** Encoding a decoded record gives the record back: the codec is a bijection between well-shaped
      entries and 32-byte records. */
  lemma EncodeDecode(b: seq<byte>)
    requires |b| == ENTRY_SIZE
    ensures Encode(Decode(b)) == b
  {
    var r := Encode(Decode(b));
    Le16Determines(r, b, 14);
    Le16Determines(r, b, 16);
    Le16Determines(r, b, 18);
    Le16Determines(r, b, 20);
    Le16Determines(r, b, 22);
    Le16Determines(r, b, 24);
    Le16Determines(r, b, 26);
    Le32Determines(r, b, 28);
    forall k | 0 <= k < 11
      ensures r[k] == b[k]
    {
      if k < 8 {
        assert r[k] == r[..8][k] && b[k] == b[..8][k];
      } else {
        assert r[k] == r[8..11][k - 8] && b[k] == b[8..11][k - 8];
      }
    }
  }

  /** The entry a zeroed directory region holds in every slot. */
  const BLANK: DirEntry := DirEntry([0, 0, 0, 0, 0, 0, 0, 0], [0, 0, 0], 0, 0, 0, 0, 0, 0, 0, 0, 0, 0, 0)

  /** Zeroed memory decodes as BLANK, and BLANK counts as a never-used slot. */
  lemma BlankIsZeroed()
    ensures Decode(seq(ENTRY_SIZE, _ => 0 as byte)) == BLANK
    ensures WellShaped(BLANK) && IsFree(BLANK) && BLANK.name[0] == FREE_MARK
  {
    var z := seq(ENTRY_SIZE, _ => 0 as byte);
    assert z[..8] == BLANK.name && z[8..11] == BLANK.ext;
  }

  /** The boot sector fat16_init writes: BIOS Parameter Block fields at their offsets, every other
      byte zero. */
  function BootSector(): (b: seq<byte>)
    ensures |b| == SECTOR_SIZE
    ensures Le16(b, 11) == SECTOR_SIZE           // bytes per sector
    ensures b[13] == 1                           // sectors per cluster
    ensures Le16(b, 14) == 1                     // reserved sectors
    ensures b[16] == 2                           // number of FATs
    ensures Le16(b, 17) == ROOT_ENTRIES          // root directory entries
    ensures Le16(b, 22) == FAT_SECTORS           // sectors per FAT
    ensures forall i :: 0 <= i < SECTOR_SIZE && !(11 <= i <= 18 || 22 <= i <= 23) ==> b[i] == 0
  {
    seq(SECTOR_SIZE, _ => 0 as byte)
      [11 := 0x00][12 := 0x02][13 := 1][14 := 1][15 := 0][16 := 2][17 := 0x00][18 := 0x02]
      [22 := 32][23 := 0]
  }

  /** The fixed region addresses are the ones the parameter block implies: one reserved sector, two
      FATs of 32 sectors, 512 directory entries of 32 bytes. The directory fills exactly
      ROOT_DIR_START .. DATA_REGION_START, and the cleared 64 KiB cover the boot sector, both FATs and
      the whole directory. */
  lemma LayoutFollowsBootSector()
    ensures FAT_TABLE_START == RAMDISK_BASE + Le16(BootSector(), 14) * Le16(BootSector(), 11)
    ensures FAT2_START == FAT_TABLE_START + Le16(BootSector(), 22) * SECTOR_SIZE
    ensures ROOT_DIR_START == FAT_TABLE_START + BootSector()[16] as int * Le16(BootSector(), 22) * SECTOR_SIZE
    ensures DATA_REGION_START == ROOT_DIR_START + Le16(BootSector(), 17) * ENTRY_SIZE
    ensures DATA_REGION_START <= RAMDISK_BASE + CLEARED_BYTES
  {
  }
}
