/** The RAM-disk FAT16 store: a 512-slot root directory, a table of 16-bit cluster markers and a data
    region of 512-byte clusters. Files occupy one slot and one cluster; slots and clusters are chosen
    first-fit and nothing is ever freed. */
module Fat16 {
  import opened Words
  import opened Fat16Layout

  /** Clusters 0 and 1 are reserved; the scans look at 2 .. 4095. */
  const FIRST_DATA_CLUSTER: int := 2
  const CLUSTER_SCAN_END: int := 4096
  /** The largest payload any caller passes to fat16_save: the editor's whole buffer. */
  const MAX_SAVE: int := 8192
  /** The modelled data region: up to the last byte a save into cluster 4095 can reach. */
  const DATA_BYTES: int := (CLUSTER_SCAN_END - 1 - FIRST_DATA_CLUSTER) * CLUSTER_SIZE + MAX_SAVE
  /** How much of the data region fat16_init's clear reaches. */
  const CLEARED_DATA: int := RAMDISK_BASE + CLEARED_BYTES - DATA_REGION_START

  /** The directory, the cluster table and the data region, as values. */
  datatype FsState = FsState(dir: seq<DirEntry>, fat: seq<u16>, data: seq<byte>)

  predicate AllWellShaped(dir: seq<DirEntry>)
  {
    forall i :: 0 <= i < |dir| ==> WellShaped(dir[i])
  }

  /** The fixed sizes of the three regions. */
  predicate Shaped(s: FsState)
  {
    |s.dir| == ROOT_ENTRIES && AllWellShaped(s.dir) && |s.fat| == CLUSTER_SCAN_END && |s.data| == DATA_BYTES
  }

  /** Offset of a cluster's first byte in the data region. */
  function Offset(c: int): int
  {
    (c - FIRST_DATA_CLUSTER) * CLUSTER_SIZE
  }

  /** An entry written by create or save: archive file "TXT" whose single cluster is closed in the
      FAT and whose size fits the modelled data region. */
  predicate Sound(s: FsState, e: DirEntry)
    requires |s.fat| == CLUSTER_SCAN_END
  {
    e.ext == EXT_TXT && e.attr == ATTR_ARCHIVE
    && FIRST_DATA_CLUSTER <= e.firstCluster as int < CLUSTER_SCAN_END
    && s.fat[e.firstCluster] == FAT_EOC
    && e.fileSize as int <= MAX_SAVE
  }

  /** The store's invariant under first-fit allocation without deletion:
      - the reserved FAT entries keep their values;
      - every slot is zeroed or was written by create/save, and then owns a closed cluster;
      - after a free slot every slot is never-used, so occupied slots form a prefix;
      - written slots own distinct clusters. */
  ghost predicate Inv(s: FsState)
  {
    Shaped(s)
    && s.fat[0] == FAT_MEDIA && s.fat[1] == FAT_EOC
    && (forall i :: 0 <= i < |s.dir| ==> s.dir[i] == BLANK || Sound(s, s.dir[i]))
    && (forall i, j :: 0 <= i < j < |s.dir| && IsFree(s.dir[i]) ==> s.dir[j].name[0] == FREE_MARK)
    && (forall i, j :: 0 <= i < j < |s.dir| && s.dir[i] != BLANK && s.dir[j] != BLANK ==>
          s.dir[i].firstCluster != s.dir[j].firstCluster)
  }

  /** The lowest free slot at or after i. */
  function FirstFreeSlotFrom(dir: seq<DirEntry>, i: nat): (r: Option<nat>)
    requires i <= |dir| && AllWellShaped(dir)
    ensures r.Some? ==> i <= r.value < |dir| && IsFree(dir[r.value])
    ensures r.Some? ==> forall j :: i <= j < r.value ==> !IsFree(dir[j])
    ensures r.None? ==> forall j :: i <= j < |dir| ==> !IsFree(dir[j])
    decreases |dir| - i
  {
    if i == |dir| then None
    else if IsFree(dir[i]) then Some(i)
    else FirstFreeSlotFrom(dir, i + 1)
  }

  /** First-fit slot choice: the lowest slot whose first name byte is 0x00 or 0xE5. */
  function FirstFreeSlot(dir: seq<DirEntry>): Option<nat>
    requires AllWellShaped(dir)
  {
    FirstFreeSlotFrom(dir, 0)
  }

  /** The lowest free cluster at or after c. */
  function FirstFreeClusterFrom(fat: seq<u16>, c: nat): (r: Option<nat>)
    requires FIRST_DATA_CLUSTER <= c <= |fat| == CLUSTER_SCAN_END
    ensures r.Some? ==> c <= r.value < CLUSTER_SCAN_END && fat[r.value] == FAT_FREE
    ensures r.Some? ==> forall j :: c <= j < r.value ==> fat[j] != FAT_FREE
    ensures r.None? ==> forall j :: c <= j < CLUSTER_SCAN_END ==> fat[j] != FAT_FREE
    decreases |fat| - c
  {
    if c == |fat| then None
    else if fat[c] == FAT_FREE then Some(c)
    else FirstFreeClusterFrom(fat, c + 1)
  }

  /** First-fit cluster choice: the lowest cluster in 2 .. 4095 whose FAT entry is 0. */
  function FirstFreeCluster(fat: seq<u16>): Option<nat>
    requires |fat| == CLUSTER_SCAN_END
  {
    FirstFreeClusterFrom(fat, FIRST_DATA_CLUSTER)
  }

  /** The fields create and save write into a slot; the slot's other fields keep their bytes. */
  function Fill(e: DirEntry, name: seq<byte>, cluster: u16, size: u32): DirEntry
  {
    e.(name := name, ext := EXT_TXT, attr := ATTR_ARCHIVE, firstCluster := cluster, fileSize := size)
  }

  /** data with bytes written from offset off on. */
  function WriteAt(data: seq<byte>, off: nat, bytes: seq<byte>): (r: seq<byte>)
    requires off + |bytes| <= |data|
    ensures |r| == |data|
    ensures forall j :: 0 <= j < |r| ==> r[j] == if off <= j < off + |bytes| then bytes[j - off] else data[j]
  {
    data[..off] + bytes + data[off + |bytes|..]
  }

  /** How a create or save ended. The source reports none of this; the failures are silent no-ops. */
  datatype Outcome = Created(slot: nat, cluster: nat) | EmptyData | SlotExhausted | ClusterExhausted

  datatype Update = Update(fs: FsState, outcome: Outcome)

  /** fat16_create_file: both scans run before any write; on success the cluster is closed and the
      slot gets the name and size 0. */
  function Create(s: FsState, name: seq<byte>): Update
    requires Shaped(s) && |name| == 8
  {
    match FirstFreeSlot(s.dir)
    case None => Update(s, SlotExhausted)
    case Some(k) =>
      match FirstFreeCluster(s.fat)
      case None => Update(s, ClusterExhausted)
      case Some(c) =>
        Update(FsState(s.dir[k := Fill(s.dir[k], name, c as u16, 0)], s.fat[c := FAT_EOC], s.data), Created(k, c))
  }

  /** fat16_save: like create, and the payload is copied to the cluster's offset with no check against
      the cluster size. Empty data is a no-op. */
  function Save(s: FsState, name: seq<byte>, bytes: seq<byte>): Update
    requires Shaped(s) && |name| == 8 && |bytes| <= MAX_SAVE
  {
    if |bytes| == 0 then Update(s, EmptyData)
    else
      match FirstFreeSlot(s.dir)
      case None => Update(s, SlotExhausted)
      case Some(k) =>
        match FirstFreeCluster(s.fat)
        case None => Update(s, ClusterExhausted)
        case Some(c) =>
          Update(FsState(s.dir[k := Fill(s.dir[k], name, c as u16, |bytes| as u32)],
                         s.fat[c := FAT_EOC],
                         WriteAt(s.data, Offset(c), bytes)),
                 Created(k, c))
  }

  /** The first slot at or after i whose 8-byte name equals name exactly. */
  function LookupFrom(dir: seq<DirEntry>, name: seq<byte>, i: nat): (r: Option<nat>)
    requires i <= |dir|
    ensures r.Some? ==> i <= r.value < |dir| && dir[r.value].name == name
    ensures r.Some? ==> forall j :: i <= j < r.value ==> dir[j].name != name
    ensures r.None? ==> forall j :: i <= j < |dir| ==> dir[j].name != name
    decreases |dir| - i
  {
    if i == |dir| then None
    else if dir[i].name == name then Some(i)
    else LookupFrom(dir, name, i + 1)
  }

  /** Lookup by name, as fat16_read and the editor's load do: the first exact match over all slots. */
  function Lookup(dir: seq<DirEntry>, name: seq<byte>): Option<nat>
  {
    LookupFrom(dir, name, 0)
  }

  /** The bytes an entry designates: fileSize bytes from its cluster's offset. */
  function FileBytes(s: FsState, e: DirEntry): seq<byte>
    requires Shaped(s)
    requires e == BLANK || Sound(s, e)
  {
    if e.fileSize == 0 then [] else s.data[Offset(e.firstCluster as int)..Offset(e.firstCluster as int) + e.fileSize as int]
  }

  /** The contents a lookup by name finds, or None when no slot has that name. */
  function ReadFile(s: FsState, name: seq<byte>): (r: Option<seq<byte>>)
    requires Inv(s)
  {
    match Lookup(s.dir, name)
    case None => None
    case Some(i) => Some(FileBytes(s, s.dir[i]))
  }

  /** Slots among the first n whose first name byte is not 0x00. */
  function UsedCount(dir: seq<DirEntry>, n: nat): (r: nat)
    requires n <= |dir| && AllWellShaped(dir)
    ensures r <= n
  {
    if n == 0 then 0
    else UsedCount(dir, n - 1) + (if dir[n - 1].name[0] != FREE_MARK then 1 else 0)
  }

  /** How many slots the mini-commander lists. */
  const LIST_SLOTS: nat := 15

  // ---------------------------------------------------------------------------------------------
  // Properties of the store

  /** create keeps the invariant. */
  lemma CreatePreservesInv(s: FsState, name: seq<byte>)
    requires Inv(s) && |name| == 8
    ensures Inv(Create(s, name).fs)
  {
    var u := Create(s, name);
    if u.outcome.Created? {
      FillPreservesInv(s, name, u.outcome.slot, u.outcome.cluster, 0, s.data);
    }
  }

  /** save keeps the invariant, whatever the payload overwrites in the data region. */
  lemma SavePreservesInv(s: FsState, name: seq<byte>, bytes: seq<byte>)
    requires Inv(s) && |name| == 8 && |bytes| <= MAX_SAVE
    ensures Inv(Save(s, name, bytes).fs)
  {
    var u := Save(s, name, bytes);
    if u.outcome.Created? {
      var c := u.outcome.cluster;
      FillPreservesInv(s, name, u.outcome.slot, c, |bytes|, WriteAt(s.data, Offset(c), bytes));
    }
  }

  /** The common step of create and save: filling the first free slot with the first free cluster. */
  lemma FillPreservesInv(s: FsState, name: seq<byte>, k: nat, c: nat, size: nat, data: seq<byte>)
    requires Inv(s) && |name| == 8 && size <= MAX_SAVE && |data| == DATA_BYTES
    requires FirstFreeSlot(s.dir) == Some(k) && FirstFreeCluster(s.fat) == Some(c)
    ensures Inv(FsState(s.dir[k := Fill(s.dir[k], name, c as u16, size as u32)], s.fat[c := FAT_EOC], data))
  {
    var e := Fill(s.dir[k], name, c as u16, size as u32);
    var t := FsState(s.dir[k := e], s.fat[c := FAT_EOC], data);
    assert e != BLANK by { assert e.ext != BLANK.ext; }
    forall i | 0 <= i < |t.dir| && i != k && t.dir[i] != BLANK
      ensures Sound(t, t.dir[i]) && t.dir[i].firstCluster as int != c
    {
      assert Sound(s, s.dir[i]);
    }
    forall i, j | 0 <= i < j < |t.dir| && IsFree(t.dir[i])
      ensures t.dir[j].name[0] == FREE_MARK
    {
      if i == k {
        assert IsFree(s.dir[k]);
      }
    }
  }

  /** Every written slot owns a different cluster, and that cluster is closed in the FAT; occupied
      slots form a prefix of the directory. */
  lemma OccupiedSlotsOwnClosedClusters(s: FsState, i: nat, j: nat)
    requires Inv(s) && i < |s.dir| && j < |s.dir|
    requires !IsFree(s.dir[i]) && !IsFree(s.dir[j]) && i != j
    ensures s.dir[i].firstCluster != s.dir[j].firstCluster
    ensures s.fat[s.dir[i].firstCluster] == FAT_EOC
    ensures forall h :: 0 <= h < i ==> !IsFree(s.dir[h])
  {
    assert s.dir[i] != BLANK && s.dir[j] != BLANK;
    if i > j {
      assert s.dir[j].firstCluster != s.dir[i].firstCluster;
    }
  }

  /** A successful create closes exactly the chosen cluster, writes exactly the chosen slot, and both
      are the lowest free ones; nothing else changes. */
  lemma CreateFrame(s: FsState, name: seq<byte>)
    requires Inv(s) && |name| == 8
    ensures var u := Create(s, name);
      u.outcome.Created? ==>
        var k, c := u.outcome.slot, u.outcome.cluster;
        && k < ROOT_ENTRIES && IsFree(s.dir[k]) && (forall h :: 0 <= h < k ==> !IsFree(s.dir[h]))
        && FIRST_DATA_CLUSTER <= c < CLUSTER_SCAN_END && s.fat[c] == FAT_FREE
        && (forall h :: FIRST_DATA_CLUSTER <= h < c ==> s.fat[h] != FAT_FREE)
        && u.fs.dir[k].name == name && u.fs.dir[k].ext == EXT_TXT && u.fs.dir[k].attr == ATTR_ARCHIVE
        && u.fs.dir[k].firstCluster as int == c && u.fs.dir[k].fileSize == 0
        && u.fs.fat[c] == FAT_EOC
        && (forall h :: 0 <= h < ROOT_ENTRIES && h != k ==> u.fs.dir[h] == s.dir[h])
        && (forall h :: 0 <= h < CLUSTER_SCAN_END && h != c ==> u.fs.fat[h] == s.fat[h])
        && u.fs.data == s.data
    ensures var u := Create(s, name); !u.outcome.Created? ==> u.fs == s
  {
  }

  /** With every slot occupied, create changes nothing: no new entry appears. */
  lemma CreateOnFullDirectory(s: FsState, name: seq<byte>)
    requires Shaped(s) && |name| == 8
    requires forall i :: 0 <= i < |s.dir| ==> !IsFree(s.dir[i])
    ensures Create(s, name) == Update(s, SlotExhausted)
  {
    assert FirstFreeSlotFrom(s.dir, 0).None?;
  }

  /** A name present nowhere, once created, reads back as an empty file. */
  lemma CreateThenRead(s: FsState, name: seq<byte>)
    requires Inv(s) && |name| == 8
    requires Lookup(s.dir, name).None?
    requires Create(s, name).outcome.Created?
    ensures Inv(Create(s, name).fs)
    ensures ReadFile(Create(s, name).fs, name) == Some([])
  {
    CreatePreservesInv(s, name);
    var u := Create(s, name);
    LookupAfterFill(s.dir, name, u.outcome.slot, u.fs.dir[u.outcome.slot]);
  }

  /** A name present nowhere, once saved, reads back as the saved bytes, whatever their length. */
  lemma SaveThenRead(s: FsState, name: seq<byte>, bytes: seq<byte>)
    requires Inv(s) && |name| == 8 && |bytes| <= MAX_SAVE
    requires Lookup(s.dir, name).None?
    requires Save(s, name, bytes).outcome.Created?
    ensures Inv(Save(s, name, bytes).fs)
    ensures ReadFile(Save(s, name, bytes).fs, name) == Some(bytes)
  {
    SavePreservesInv(s, name, bytes);
    var u := Save(s, name, bytes);
    var k, c := u.outcome.slot, u.outcome.cluster;
    LookupAfterFill(s.dir, name, k, u.fs.dir[k]);
    assert u.fs.data[Offset(c)..Offset(c) + |bytes|] == bytes;
  }

  /** save always takes a new slot, and lookup returns the first match: after create, save of the
      same name, the name still reads back as the empty file create made. */
  lemma CreateSaveThenReadFindsCreated(s: FsState, name: seq<byte>, bytes: seq<byte>)
    requires Inv(s) && |name| == 8 && |bytes| <= MAX_SAVE
    requires name[0] != FREE_MARK && name[0] != DELETED_MARK
    requires Lookup(s.dir, name).None?
    requires Create(s, name).outcome.Created?
    ensures Inv(Create(s, name).fs)
    ensures ReadFile(Save(Create(s, name).fs, name, bytes).fs, name) == Some([])
  {
    CreateThenRead(s, name);
    var s1 := Create(s, name).fs;
    var k := Create(s, name).outcome.slot;
    SavePreservesInv(s1, name, bytes);
    var u := Save(s1, name, bytes);
    if u.outcome.Created? {
      var k2 := u.outcome.slot;
      assert k < k2 by {
        assert !IsFree(s1.dir[k]);
      }
      LookupFindsFirst(u.fs.dir, name, k);
    }
  }

  /** Lookup finds a slot with the name when no earlier slot has it. */
  lemma LookupFindsFirst(dir: seq<DirEntry>, name: seq<byte>, k: nat)
    requires k < |dir| && dir[k].name == name
    requires forall j :: 0 <= j < k ==> dir[j].name != name
    ensures Lookup(dir, name) == Some(k)
  {
    LookupFromFindsFirst(dir, name, 0, k);
  }

  lemma {:induction false} LookupFromFindsFirst(dir: seq<DirEntry>, name: seq<byte>, i: nat, k: nat)
    requires i <= k < |dir| && dir[k].name == name
    requires forall j :: i <= j < k ==> dir[j].name != name
    ensures LookupFrom(dir, name, i) == Some(k)
    decreases k - i
  {
    if i < k {
      LookupFromFindsFirst(dir, name, i + 1, k);
    }
  }

  /** Lookup after one slot is filled with a name no slot had: it finds that slot. */
  lemma LookupAfterFill(dir: seq<DirEntry>, name: seq<byte>, k: nat, e: DirEntry)
    requires k < |dir| && e.name == name
    requires Lookup(dir, name).None?
    ensures Lookup(dir[k := e], name) == Some(k)
  {
    LookupFindsFirst(dir[k := e], name, k);
  }

  /** The overrun: a payload longer than one cluster spills into the next cluster, so a file stored
      there afterwards reads back bytes of the new payload. */
  lemma SaveOverrunsNextCluster(s: FsState, name: seq<byte>, bytes: seq<byte>, other: seq<byte>, j: nat)
    requires Inv(s) && |name| == 8 && |bytes| <= MAX_SAVE
    requires Lookup(s.dir, other) == Some(j) && other != name && !IsFree(s.dir[j])
    requires Save(s, name, bytes).outcome.Created?
    requires s.dir[j].firstCluster as int == Save(s, name, bytes).outcome.cluster + 1
    requires 0 < s.dir[j].fileSize as int && CLUSTER_SIZE + s.dir[j].fileSize as int <= |bytes|
    ensures Inv(Save(s, name, bytes).fs)
    ensures ReadFile(Save(s, name, bytes).fs, other) == Some(bytes[CLUSTER_SIZE..CLUSTER_SIZE + s.dir[j].fileSize as int])
  {
    SavePreservesInv(s, name, bytes);
    var u := Save(s, name, bytes);
    var k, c := u.outcome.slot, u.outcome.cluster;
    assert s.dir[j] != BLANK;
    LookupFindsFirst(u.fs.dir, other, j);
    var size := s.dir[j].fileSize as int;
    assert Offset(c + 1) == Offset(c) + CLUSTER_SIZE;
    assert u.fs.data[Offset(c + 1)..Offset(c + 1) + size] == bytes[CLUSTER_SIZE..CLUSTER_SIZE + size];
  }

  /** Occupied slots form a prefix: once a slot is free, none after it has a non-zero first byte. The
      listing count therefore covers the first UsedCount slots, each with a non-zero first byte. */
  lemma ListedSlotsAreUsed(s: FsState, i: nat)
    requires Inv(s) && i < UsedCount(s.dir, LIST_SLOTS)
    ensures s.dir[i].name[0] != FREE_MARK
  {
    if s.dir[i].name[0] == FREE_MARK {
      UsedCountStopsAtZero(s.dir, i, LIST_SLOTS);
      assert false;
    }
  }

  /** If slots m .. n-1 all have first byte 0x00, the count over n slots is the count over m. */
  lemma {:induction false} UsedCountStopsAtZero(dir: seq<DirEntry>, m: nat, n: nat)
    requires m <= n <= |dir| && AllWellShaped(dir)
    requires forall h :: m <= h < n ==> dir[h].name[0] == FREE_MARK
    ensures UsedCount(dir, n) == UsedCount(dir, m) <= m
    decreases n
  {
    if n > m {
      UsedCountStopsAtZero(dir, m, n - 1);
    }
  }

  /** A directory in which no listed slot lost its non-zero first byte lists at least as many. */
  lemma {:induction false} UsedCountMonotone(d1: seq<DirEntry>, d2: seq<DirEntry>, n: nat)
    requires n <= |d1| && n <= |d2| && AllWellShaped(d1) && AllWellShaped(d2)
    requires forall h :: 0 <= h < n && d1[h].name[0] != FREE_MARK ==> d2[h].name[0] != FREE_MARK
    ensures UsedCount(d1, n) <= UsedCount(d2, n)
    decreases n
  {
    if n > 0 {
      UsedCountMonotone(d1, d2, n - 1);
    }
  }

  /** Creating a file whose name does not start with 0x00 never shrinks the listing. */
  lemma CreateKeepsListing(s: FsState, name: seq<byte>)
    requires Inv(s) && |name| == 8 && name[0] != FREE_MARK
    ensures Shaped(Create(s, name).fs)
    ensures UsedCount(s.dir, LIST_SLOTS) <= UsedCount(Create(s, name).fs.dir, LIST_SLOTS)
  {
    CreatePreservesInv(s, name);
    UsedCountMonotone(s.dir, Create(s, name).fs.dir, LIST_SLOTS);
  }

  /** Saving under a name whose first byte is not 0x00 never shrinks the listing. */
  lemma SaveKeepsListing(s: FsState, name: seq<byte>, bytes: seq<byte>)
    requires Inv(s) && |name| == 8 && name[0] != FREE_MARK && |bytes| <= MAX_SAVE
    ensures Shaped(Save(s, name, bytes).fs)
    ensures UsedCount(s.dir, LIST_SLOTS) <= UsedCount(Save(s, name, bytes).fs.dir, LIST_SLOTS)
  {
    SavePreservesInv(s, name, bytes);
    UsedCountMonotone(s.dir, Save(s, name, bytes).fs.dir, LIST_SLOTS);
  }

  /** The state fat16_init leaves: reserved FAT values, every other modelled FAT entry and every slot
      zero; data holds whatever it held, except the part the clear reached. */
  ghost predicate Formatted(s: FsState)
  {
    Shaped(s)
    && s.fat[0] == FAT_MEDIA && s.fat[1] == FAT_EOC
    && (forall c :: FIRST_DATA_CLUSTER <= c < CLUSTER_SCAN_END ==> s.fat[c] == FAT_FREE)
    && (forall i :: 0 <= i < ROOT_ENTRIES ==> s.dir[i] == BLANK)
    && (forall j :: 0 <= j < CLEARED_DATA ==> s.data[j] == 0)
  }

  /** A formatted volume satisfies the invariant and has no file. */
  lemma FormattedIsEmpty(s: FsState, name: seq<byte>)
    requires Formatted(s)
    ensures Inv(s)
    ensures name != BLANK.name ==> ReadFile(s, name).None?
    ensures UsedCount(s.dir, LIST_SLOTS) == 0
  {
    BlankIsZeroed();
    UsedCountStopsAtZero(s.dir, 0, LIST_SLOTS);
    if name != BLANK.name {
      assert forall j :: 0 <= j < |s.dir| ==> s.dir[j].name != name;
    }
  }

  /** The cluster scan from c on reads no entry below c. */
  lemma {:induction false} ScanIgnoresBelow(f: seq<u16>, g: seq<u16>, c: nat)
    requires FIRST_DATA_CLUSTER <= c <= |f| == |g| == CLUSTER_SCAN_END
    requires forall h :: c <= h < CLUSTER_SCAN_END ==> f[h] == g[h]
    ensures FirstFreeClusterFrom(f, c) == FirstFreeClusterFrom(g, c)
    decreases CLUSTER_SCAN_END - c
  {
    if c < CLUSTER_SCAN_END {
      ScanIgnoresBelow(f, g, c + 1);
    }
  }

  /** Neither create nor save reads the reserved FAT entries 0 and 1: over a table holding any other
      values there, both choose the same slot and cluster and write the same directory, data and FAT
      entries. */
  lemma ReservedEntriesUnread(s: FsState, a: u16, b: u16, name: seq<byte>, bytes: seq<byte>)
    requires Shaped(s) && |name| == 8 && |bytes| <= MAX_SAVE
    ensures var t := s.(fat := s.fat[0 := a][1 := b]);
      && Shaped(t)
      && Create(t, name).outcome == Create(s, name).outcome
      && Create(t, name).fs == Create(s, name).fs.(fat := Create(s, name).fs.fat[0 := a][1 := b])
      && Save(t, name, bytes).outcome == Save(s, name, bytes).outcome
      && Save(t, name, bytes).fs == Save(s, name, bytes).fs.(fat := Save(s, name, bytes).fs.fat[0 := a][1 := b])
  {
    var t := s.(fat := s.fat[0 := a][1 := b]);
    ScanIgnoresBelow(t.fat, s.fat, FIRST_DATA_CLUSTER);
    match FirstFreeCluster(s.fat)
    case None =>
    case Some(c) =>
      assert t.fat[c := FAT_EOC] == s.fat[c := FAT_EOC][0 := a][1 := b];
  }

  // ---------------------------------------------------------------------------------------------
  // The volume in memory

  /** The RAM disk: the boot sector, the root directory (a sequence of records), FAT 1 and the data
      region. */
  class Fat16Disk {
    var bootSector: seq<byte>
    var dir: seq<DirEntry>
    var fat: array<u16>
    var data: array<byte>

    ghost function State(): FsState
      reads this, fat, data
    {
      FsState(dir, fat[..], data[..])
    }

    ghost predicate Valid()
      reads this, fat, data
    {
      Inv(State())
    }

    /** fat16_init: clear the boot sector, both FATs and the directory, write the parameter block and
        the two reserved FAT entries. */
    constructor Format()
      ensures Valid() && Formatted(State())
      ensures bootSector == BootSector()
      ensures fresh(fat) && fresh(data)
    {
      bootSector := BootSector();
      dir := seq(ROOT_ENTRIES, _ => BLANK);
      var table := new u16[CLUSTER_SCAN_END](_ => FAT_FREE);
      table[0] := FAT_MEDIA;
      table[1] := FAT_EOC;
      var region := new byte[DATA_BYTES];
      var j := 0;
      while j < CLEARED_DATA
        modifies region
        invariant 0 <= j <= CLEARED_DATA
        invariant forall h :: 0 <= h < j ==> region[h] == 0
      {
        region[j] := 0;
        j := j + 1;
      }
      fat := table;
      data := region;
      new;
      assert Formatted(State());
      FormattedIsEmpty(State(), BLANK.name);
    }

    /** The directory scan: the lowest free slot, if any. */
    method FindFreeSlot() returns (r: Option<nat>)
      requires |dir| == ROOT_ENTRIES && AllWellShaped(dir)
      ensures r == FirstFreeSlot(dir)
      ensures r.Some? ==> r.value < ROOT_ENTRIES && IsFree(dir[r.value])
    {
      var i := 0;
      while i < ROOT_ENTRIES
        invariant 0 <= i <= ROOT_ENTRIES
        invariant FirstFreeSlotFrom(dir, i) == FirstFreeSlot(dir)
      {
        if IsFree(dir[i]) {
          return Some(i);
        }
        i := i + 1;
      }
      r := None;
    }

    /** The FAT scan over 2 .. 4095; 0 means no cluster was found. */
    method FindFreeCluster() returns (c: u16)
      requires fat.Length == CLUSTER_SCAN_END
      ensures c == 0 <==> FirstFreeCluster(fat[..]).None?
      ensures c != 0 ==> FirstFreeCluster(fat[..]) == Some(c as nat)
    {
      var i := FIRST_DATA_CLUSTER;
      while i < CLUSTER_SCAN_END
        invariant FIRST_DATA_CLUSTER <= i <= CLUSTER_SCAN_END
        invariant FirstFreeClusterFrom(fat[..], i) == FirstFreeCluster(fat[..])
      {
        if fat[i] == FAT_FREE {
          return i as u16;
        }
        i := i + 1;
      }
      c := 0;
    }

    /** fat16_create_file. */
    method CreateFile(name: seq<byte>) returns (outcome: Outcome)
      requires Valid() && |name| == 8
      modifies this, fat
      ensures Valid()
      ensures Update(State(), outcome) == Create(old(State()), name)
      ensures bootSector == old(bootSector) && fat == old(fat) && data == old(data)
    {
      CreatePreservesInv(State(), name);
      var slot := FindFreeSlot();
      if slot.None? {
        return SlotExhausted;
      }
      var cluster := FindFreeCluster();
      if cluster == 0 {
        return ClusterExhausted;
      }
      var k := slot.value;
      fat[cluster] := FAT_EOC;
      dir := dir[k := Fill(dir[k], name, cluster, 0)];
      outcome := Created(k, cluster as nat);
    }

    /** fat16_save. */
    method SaveFile(name: seq<byte>, bytes: seq<byte>) returns (outcome: Outcome)
      requires Valid() && |name| == 8 && |bytes| <= MAX_SAVE
      modifies this, fat, data
      ensures Valid()
      ensures Update(State(), outcome) == Save(old(State()), name, bytes)
      ensures bootSector == old(bootSector) && fat == old(fat) && data == old(data)
    {
      SavePreservesInv(State(), name, bytes);
      if |bytes| == 0 {
        return EmptyData;
      }
      var slot := FindFreeSlot();
      if slot.None? {
        return SlotExhausted;
      }
      var cluster := FindFreeCluster();
      if cluster == 0 {
        return ClusterExhausted;
      }
      var k := slot.value;
      WriteData(Offset(cluster as int), bytes);
      fat[cluster] := FAT_EOC;
      dir := dir[k := Fill(dir[k], name, cluster, |bytes| as u32)];
      outcome := Created(k, cluster as nat);
    }

    /** The copy loop of the save routines: bytes written to the data region from offset off on. */
    method WriteData(off: nat, bytes: seq<byte>)
      requires off + |bytes| <= data.Length
      modifies data
      ensures data[..] == WriteAt(old(data[..]), off, bytes)
    {
      var i := 0;
      while i < |bytes|
        invariant 0 <= i <= |bytes|
        invariant forall j :: 0 <= j < data.Length ==>
          data[j] == if off <= j < off + i then bytes[j - off] else old(data[j])
      {
        data[off + i] := bytes[i];
        i := i + 1;
      }
    }

    /** fat16_save_input_as_file: saves the first textLen bytes of the capture buffer at 0x600. */
    method SaveInputAsFile(name: seq<byte>, capture: seq<byte>, textLen: byte) returns (outcome: Outcome)
      requires Valid() && |name| == 8 && textLen as int <= |capture|
      modifies this, fat, data
      ensures Valid()
      ensures Update(State(), outcome) == Save(old(State()), name, capture[..textLen])
      ensures textLen == 0 ==> State() == old(State())
      ensures bootSector == old(bootSector) && fat == old(fat) && data == old(data)
    {
      outcome := SaveFile(name, capture[..textLen]);
    }

    /** fat16_read: the bytes it shows for the first slot with the name, or None when there is none. */
    method Read(name: seq<byte>) returns (r: Option<seq<byte>>)
      requires Valid()
      ensures r == ReadFile(State(), name)
    {
      var i := 0;
      while i < ROOT_ENTRIES
        invariant 0 <= i <= ROOT_ENTRIES
        invariant LookupFrom(dir, name, i) == Lookup(dir, name)
      {
        if dir[i].name == name {
          var e := dir[i];
          if e.fileSize == 0 {
            return Some([]);
          }
          var off := Offset(e.firstCluster as int);
          return Some(data[off..off + e.fileSize as int]);
        }
        i := i + 1;
      }
      r := None;
    }

    /** The counting part of refresh_mc_list: slots among the first 15 whose first name byte is not
        0x00 (0xE5 slots included). */
    method CountListed() returns (n: byte)
      requires |dir| == ROOT_ENTRIES && AllWellShaped(dir)
      ensures n as int == UsedCount(dir, LIST_SLOTS) <= LIST_SLOTS
    {
      n := 0;
      var i := 0;
      while i < LIST_SLOTS
        invariant 0 <= i <= LIST_SLOTS
        invariant n as int == UsedCount(dir, i)
      {
        if dir[i].name[0] != FREE_MARK {
          n := n + 1;
        }
        i := i + 1;
      }
    }
  }
}
