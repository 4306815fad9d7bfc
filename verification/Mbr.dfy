/** The DOS partition table (UEFI Specification 2.10, section 5.2.1) and its defensive parser. */
module Mbr {
  import opened Basics
  import opened Sorting

  const SECTOR_BYTES: nat := 512
  const TABLE_OFFSET: nat := 446
  const ENTRY_BYTES: nat := 16
  const PROTECTIVE_TYPE: Byte := 0xEE
  const EXTENDED_TYPES: set<Byte> := {0x05, 0x0F, 0x85}
  /** "EFI PART", the signature of the GPT header (section 5.3.2). */
  const GPT_SIGNATURE: seq<Byte> := [0x45, 0x46, 0x49, 0x20, 0x50, 0x41, 0x52, 0x54]

  type Sector = s: seq<Byte> | |s| == SECTOR_BYTES witness seq(SECTOR_BYTES, _ => 0)

  datatype PartitionKind = Fat | Linux | Other(code: Byte)

  /** A non-empty primary partition; `endLba` is inclusive. */
  datatype Partition = Partition(
    number: nat,
    typeCode: Byte,
    kind: PartitionKind,
    startLba: nat,
    sectors: nat,
    endLba: nat,
    bootable: bool)

  datatype MbrError =
    | InvalidSignature
    | GptDetected
    | ExtendedPartition
    | StartsAtZero
    | GeometryOverflow
    | PartitionOutOfBounds
    | OverlappingPartitions

  /** One sixteen-byte table slot. */
  datatype Entry = Entry(status: Byte, typeCode: Byte, start: U32, sectors: U32)

  function Classify(typeCode: Byte): PartitionKind {
    if typeCode in {0x01, 0x04, 0x06, 0x0B, 0x0C, 0x0E} then Fat
    else if typeCode == 0x83 then Linux
    else Other(typeCode)
  }

  function SlotOffset(number: nat): (offset: nat)
    requires 1 <= number <= 4
    ensures TABLE_OFFSET <= offset && offset + ENTRY_BYTES <= 510
  {
    TABLE_OFFSET + (number - 1) * ENTRY_BYTES
  }

  function FromLe32(bytes: seq<Byte>): U32
    requires |bytes| == 4
  {
    (bytes[0] as int) + 0x100 * (bytes[1] as int) + 0x1_0000 * (bytes[2] as int) + 0x100_0000 * (bytes[3] as int)
  }

  function ToLe32(value: U32): seq<Byte> {
    [value % 0x100, value / 0x100 % 0x100, value / 0x1_0000 % 0x100, value / 0x100_0000]
  }

  lemma Le32RoundTrip(value: U32)
    ensures FromLe32(ToLe32(value)) == value
  {
    var v1 := value / 0x100;
    var v2 := value / 0x1_0000;
    var v3 := value / 0x100_0000;
    assert value == 0x100 * v1 + value % 0x100;
    assert v1 == 0x100 * v2 + v1 % 0x100;
    assert v2 == 0x100 * v3 + v2 % 0x100;
  }

  function DecodeEntry(slot: seq<Byte>): Entry
    requires |slot| == ENTRY_BYTES
  {
    Entry(slot[0], slot[4], FromLe32(slot[8..12]), FromLe32(slot[12..16]))
  }

  function EntryAt(sector: Sector, number: nat): Entry
    requires 1 <= number <= 4
  {
    DecodeEntry(sector[SlotOffset(number)..SlotOffset(number) + ENTRY_BYTES])
  }

  type Table = t: seq<Entry> | |t| == 4 witness seq(4, _ => Entry(0, 0, 0, 0))

  /** The four slots; slot number k is at index k - 1. */
  function Slots(sector: Sector): Table {
    [EntryAt(sector, 1), EntryAt(sector, 2), EntryAt(sector, 3), EntryAt(sector, 4)]
  }

  predicate Blank(entry: Entry) {
    entry.typeCode == 0 && entry.sectors == 0
  }

  /** Why a non-blank entry is refused, in the order the parser looks. */
  function Fault(entry: Entry, totalSectors: nat): Option<MbrError> {
    if entry.typeCode == PROTECTIVE_TYPE then Some(GptDetected)
    else if entry.typeCode in EXTENDED_TYPES then Some(ExtendedPartition)
    else if entry.start == 0 then Some(StartsAtZero)
    else if entry.start + entry.sectors > MAX_U64 then Some(GeometryOverflow)
    else if entry.sectors == 0 || entry.start + entry.sectors - 1 >= totalSectors
    then Some(PartitionOutOfBounds)
    else None
  }

  function ToPartition(number: nat, entry: Entry): Partition
    requires entry.start > 0
  {
    Partition(number, entry.typeCode, Classify(entry.typeCode), entry.start, entry.sectors,
              entry.start + entry.sectors - 1, entry.status == 0x80)
  }

  /** First fault among slots 1..n. */
  function FirstFault(slots: Table, totalSectors: nat, n: nat): (r: Option<MbrError>)
    requires n <= 4
    ensures r.None? <==> forall k :: 0 <= k < n && !Blank(slots[k]) ==> Fault(slots[k], totalSectors).None?
  {
    if n == 0 then None
    else
      var earlier := FirstFault(slots, totalSectors, n - 1);
      if earlier.Some? then earlier
      else if Blank(slots[n - 1]) then None
      else Fault(slots[n - 1], totalSectors)
  }

  /** The partitions of the non-blank slots 1..n, in table order. */
  function Collected(slots: Table, n: nat): seq<Partition>
    requires n <= 4
  {
    if n == 0 then []
    else
      var entry := slots[n - 1];
      Collected(slots, n - 1)
      + if Blank(entry) || entry.start == 0 then [] else [ToPartition(n, entry)]
  }

  predicate Disjoint(a: Partition, b: Partition) {
    a.endLba < b.startLba || b.endLba < a.startLba
  }

  predicate PairwiseDisjoint(ps: seq<Partition>) {
    forall i, j :: 0 <= i < j < |ps| ==> Disjoint(ps[i], ps[j])
  }

  predicate HasSignature(sector: Sector) {
    sector[510] == 0x55 && sector[511] == 0xAA
  }

  predicate GptHeader(lba1: Option<seq<Byte>>) {
    lba1.Some? && GPT_SIGNATURE <= lba1.value
  }

  /** Slots 1..4 read as a list of partitions, overlap judged over all pairs. */
  function ParseSlots(slots: Table, totalSectors: nat): Result<seq<Partition>, MbrError> {
    if FirstFault(slots, totalSectors, 4).Some? then Err(FirstFault(slots, totalSectors, 4).value)
    else if PairwiseDisjoint(Collected(slots, 4)) then Ok(Collected(slots, 4))
    else Err(OverlappingPartitions)
  }

  /** What parsing means, as a function of the bytes. */
  function Parse(sector: Sector, lba1: Option<seq<Byte>>, totalSectors: nat)
    : Result<seq<Partition>, MbrError>
  {
    if !HasSignature(sector) then Err(InvalidSignature)
    else if GptHeader(lba1) then Err(GptDetected)
    else ParseSlots(Slots(sector), totalSectors)
  }

  // ----- The imperative parser: entry loop, sort by start, adjacent pairs -----

  predicate StartLe(a: Partition, b: Partition) {
    a.startLba <= b.startLba
  }

  predicate AdjacentDisjoint(ps: seq<Partition>) {
    forall i :: 0 <= i < |ps| - 1 ==> ps[i].endLba < ps[i + 1].startLba
  }

  /** A permutation-invariant reading of PairwiseDisjoint. */
  ghost predicate DisjointAsBag(bag: multiset<Partition>) {
    && (forall p :: p in bag ==> bag[p] == 1)
    && (forall p, q :: p in bag && q in bag && p != q ==> Disjoint(p, q))
  }

  lemma TwiceInBag(ps: seq<Partition>, i: nat, j: nat)
    requires i < j < |ps| && ps[i] == ps[j]
    ensures multiset(ps)[ps[i]] >= 2
  {
    assert ps == ps[..j] + ps[j..];
    assert ps[i] in multiset(ps[..j]) by { assert ps[..j][i] == ps[i]; }
    assert ps[j] in multiset(ps[j..]) by { assert ps[j..][0] == ps[j]; }
  }

  lemma {:induction false} OncePerIndex(ps: seq<Partition>, p: Partition)
    requires forall i, j :: 0 <= i < j < |ps| ==> ps[i] != ps[j]
    ensures multiset(ps)[p] <= 1
  {
    if ps != [] {
      var last := |ps| - 1;
      assert ps == ps[..last] + [ps[last]];
      OncePerIndex(ps[..last], p);
      if p == ps[last] {
        assert p !in ps[..last];
      }
    }
  }

  lemma PairwiseIsBagDisjoint(ps: seq<Partition>)
    requires forall p :: p in ps ==> p.startLba <= p.endLba
    ensures PairwiseDisjoint(ps) <==> DisjointAsBag(multiset(ps))
  {
    if PairwiseDisjoint(ps) {
      forall p | p in multiset(ps) ensures multiset(ps)[p] == 1 {
        forall i, j | 0 <= i < j < |ps| ensures ps[i] != ps[j] {
          assert Disjoint(ps[i], ps[j]);
        }
        OncePerIndex(ps, p);
      }
      forall p, q | p in multiset(ps) && q in multiset(ps) && p != q ensures Disjoint(p, q) {
        var i :| 0 <= i < |ps| && ps[i] == p;
        var j :| 0 <= j < |ps| && ps[j] == q;
        assert if i < j then Disjoint(ps[i], ps[j]) else Disjoint(ps[j], ps[i]);
      }
    }
    if DisjointAsBag(multiset(ps)) {
      forall i, j | 0 <= i < j < |ps| ensures Disjoint(ps[i], ps[j]) {
        if ps[i] == ps[j] {
          TwiceInBag(ps, i, j);
        }
        assert ps[i] in multiset(ps) && ps[j] in multiset(ps);
      }
    }
  }

  lemma AdjacentReaches(ps: seq<Partition>, i: nat, j: nat)
    requires i < j < |ps| && AdjacentDisjoint(ps)
    requires forall p :: p in ps ==> p.startLba <= p.endLba
    ensures ps[i].endLba < ps[j].startLba
    decreases j
  {
    if i + 1 < j {
      AdjacentReaches(ps, i, j - 1);
      assert ps[j - 1] in ps;
    }
  }

  /** Checking neighbours of any sorted permutation is checking every pair. */
  lemma AdjacentIffPairwise(ps: seq<Partition>, sorted: seq<Partition>)
    requires multiset(sorted) == multiset(ps) && SortedBy(StartLe, sorted)
    requires forall p :: p in ps ==> p.startLba <= p.endLba
    ensures AdjacentDisjoint(sorted) <==> PairwiseDisjoint(ps)
  {
    forall p | p in sorted ensures p in ps {
      assert p in multiset(sorted);
    }
    PairwiseIsBagDisjoint(ps);
    PairwiseIsBagDisjoint(sorted);
    if AdjacentDisjoint(sorted) {
      forall i, j | 0 <= i < j < |sorted| ensures Disjoint(sorted[i], sorted[j]) {
        AdjacentReaches(sorted, i, j);
      }
    }
    if PairwiseDisjoint(sorted) {
      forall i | 0 <= i < |sorted| - 1 ensures sorted[i].endLba < sorted[i + 1].startLba {
        assert Disjoint(sorted[i], sorted[i + 1]) && StartLe(sorted[i], sorted[i + 1]);
        assert sorted[i + 1] in sorted;
      }
    }
  }

  lemma {:induction false} CollectedInBounds(slots: Table, totalSectors: nat, n: nat)
    requires n <= 4 && FirstFault(slots, totalSectors, n).None?
    ensures forall p :: p in Collected(slots, n) ==>
                          && 1 <= p.number <= n && 1 <= p.startLba <= p.endLba < totalSectors
                          && p.endLba == p.startLba + p.sectors - 1 && p.sectors <= MAX_U32
                          && p.kind == Classify(p.typeCode)
                          && p.typeCode != PROTECTIVE_TYPE && p.typeCode !in EXTENDED_TYPES
    ensures forall i, j :: 0 <= i < j < |Collected(slots, n)| ==>
                             Collected(slots, n)[i].number < Collected(slots, n)[j].number
    ensures |Collected(slots, n)| <= n
  {
    if n > 0 {
      CollectedInBounds(slots, totalSectors, n - 1);
    }
  }

  /** The entry loop: the partitions of the non-blank slots, or the first fault met. */
  method ReadEntries(sector: Sector, totalSectors: U64) returns (r: Result<seq<Partition>, MbrError>)
    ensures var fault := FirstFault(Slots(sector), totalSectors, 4);
            r == if fault.Some? then Err(fault.value) else Ok(Collected(Slots(sector), 4))
  {
    ghost var slots := Slots(sector);
    var partitions := [];
    for number := 1 to 5
      invariant partitions == Collected(slots, number - 1)
      invariant FirstFault(slots, totalSectors, number - 1).None?
    {
      var entry := EntryAt(sector, number);
      if Blank(entry) {
        continue;
      }
      var fault := Fault(entry, totalSectors);
      if fault.Some? {
        FaultPersists(slots, totalSectors, number);
        return Err(fault.value);
      }
      partitions := partitions + [ToPartition(number, entry)];
    }
    return Ok(partitions);
  }

  /** `windows(2).any(..)` over the sorted entries. */
  method NeighboursOverlap(byStart: seq<Partition>) returns (overlap: bool)
    ensures overlap <==> !AdjacentDisjoint(byStart)
  {
    var i := 0;
    while i + 1 < |byStart|
      invariant 0 <= i
      invariant forall k :: 0 <= k < i && k < |byStart| - 1 ==> byStart[k].endLba < byStart[k + 1].startLba
    {
      if byStart[i].endLba >= byStart[i + 1].startLba {
        return true;
      }
      i := i + 1;
    }
    return false;
  }

  method ParseMbr(sector: Sector, lba1: Option<seq<Byte>>, totalSectors: U64)
    returns (r: Result<seq<Partition>, MbrError>)
    ensures r == Parse(sector, lba1, totalSectors)
  {
    if sector[510] != 0x55 || sector[511] != 0xAA {
      return Err(InvalidSignature);
    }
    if lba1.Some? && GPT_SIGNATURE <= lba1.value {
      return Err(GptDetected);
    }
    hide Slots, FirstFault, Collected, PairwiseDisjoint, AdjacentDisjoint;
    var partitions :- ReadEntries(sector, totalSectors);
    CollectedInBounds(Slots(sector), totalSectors, 4);
    var byStart := Sort(StartLe, partitions);
    AdjacentIffPairwise(partitions, byStart);
    var overlap := NeighboursOverlap(byStart);
    if overlap {
      return Err(OverlappingPartitions);
    }
    return Ok(partitions);
  }

  lemma {:induction false} FaultPersists(slots: Table, totalSectors: nat, n: nat)
    requires 1 <= n <= 4 && FirstFault(slots, totalSectors, n).Some?
    ensures FirstFault(slots, totalSectors, 4) == FirstFault(slots, totalSectors, n)
    decreases 4 - n
  {
    if n < 4 {
      FaultPersists(slots, totalSectors, n + 1);
    }
  }

  // ----- Lists of partitions -----

  /** What every parsed table satisfies. */
  ghost predicate Valid(ps: seq<Partition>, totalSectors: nat) {
    && (forall p :: p in ps ==>
                      && 1 <= p.number <= 4 && 1 <= p.startLba <= p.endLba < totalSectors
                      && p.endLba == p.startLba + p.sectors - 1
                      && p.startLba <= MAX_U32 && p.sectors <= MAX_U32
                      && p.kind == Classify(p.typeCode)
                      && p.typeCode != PROTECTIVE_TYPE && p.typeCode !in EXTENDED_TYPES)
    && Ascending(ps)
    && PairwiseDisjoint(ps)
  }

  predicate Ascending(ps: seq<Partition>) {
    forall i, j :: 0 <= i < j < |ps| ==> ps[i].number < ps[j].number
  }

  /** `iter().find(|p| p.number == number)`. */
  function Find(ps: seq<Partition>, number: nat): (r: Option<Partition>)
    ensures r.Some? ==> r.value in ps && r.value.number == number
    ensures r.None? ==> forall p :: p in ps ==> p.number != number
  {
    if ps == [] then None
    else if ps[0].number == number then Some(ps[0])
    else Find(ps[1..], number)
  }

  /** `p` with a new inclusive end, and the length that goes with it, when it is the numbered one. */
  function Moved(p: Partition, number: nat, endLba: nat): Partition {
    if p.number == number then p.(endLba := endLba, sectors := SaturatingSub(endLba + 1, p.startLba)) else p
  }

  /** The list with only one partition's end replaced. */
  function WithEnd(ps: seq<Partition>, number: nat, endLba: nat): seq<Partition> {
    seq(|ps|, i requires 0 <= i < |ps| => Moved(ps[i], number, endLba))
  }
}
