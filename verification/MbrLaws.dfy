/** What a parsed table guarantees, and how writing bytes and parsing them fit together. */
module MbrLaws {
  import opened Basics
  import opened Mbr

  lemma {:induction false} CollectedMembers(slots: Table, n: nat, p: Partition)
    requires n <= 4
    ensures p in Collected(slots, n) <==>
            && 1 <= p.number <= n && !Blank(slots[p.number - 1]) && slots[p.number - 1].start > 0
            && p == ToPartition(p.number, slots[p.number - 1])
  {
    if n > 0 {
      CollectedMembers(slots, n - 1, p);
    }
  }

  /** A non-blank slot describes a supported partition inside the device. */
  predicate Supported(entry: Entry, totalSectors: nat) {
    && entry.typeCode != PROTECTIVE_TYPE && entry.typeCode !in EXTENDED_TYPES
    && 1 <= entry.start && 1 <= entry.sectors && entry.start + entry.sectors <= totalSectors
  }

  predicate Apart(a: Entry, b: Entry) {
    a.start + a.sectors <= b.start || b.start + b.sectors <= a.start
  }

  ghost predicate AcceptedTable(slots: Table, totalSectors: nat) {
    && (forall k :: 0 <= k < 4 && !Blank(slots[k]) ==> Supported(slots[k], totalSectors))
    && SlotsApart(slots)
  }

  /** Soundness and completeness of the parser against the raw slots. */
  lemma ParseAcceptsExactly(sector: Sector, lba1: Option<seq<Byte>>, totalSectors: U64)
    ensures Parse(sector, lba1, totalSectors).Ok? <==>
            HasSignature(sector) && !GptHeader(lba1) && AcceptedTable(Slots(sector), totalSectors)
    ensures Parse(sector, lba1, totalSectors) != Err(GeometryOverflow)
  {
    SlotsAcceptExactly(Slots(sector), totalSectors);
    NoOverflow(Slots(sector), totalSectors, 4);
  }

  function Le32At(sector: Sector, i: nat): nat
    requires i + 4 <= SECTOR_BYTES
  {
    (sector[i] as int) + 256 * (sector[i + 1] as int) + 65536 * (sector[i + 2] as int)
    + 16777216 * (sector[i + 3] as int)
  }

  /** Every parsed partition says what the bytes of its slot say, slot by slot from byte 446. */
  lemma ParsedFromBytes(sector: Sector, lba1: Option<seq<Byte>>, totalSectors: nat, p: Partition)
    requires Parse(sector, lba1, totalSectors).Ok? && p in Parse(sector, lba1, totalSectors).value
    ensures 1 <= p.number <= 4
    ensures var at := 430 + 16 * p.number;
            && (p.bootable <==> sector[at] == 0x80) && p.typeCode == sector[at + 4]
            && p.startLba == Le32At(sector, at + 8) && p.sectors == Le32At(sector, at + 12)
    ensures p.kind == Linux <==> p.typeCode == 0x83
    ensures p.kind == Fat <==> p.typeCode in {0x01, 0x04, 0x06, 0x0B, 0x0C, 0x0E}
  {
    CollectedMembers(Slots(sector), 4, p);
    hide Slots, Collected, FirstFault, PairwiseDisjoint;
    assert Slots(sector)[p.number - 1] == EntryAt(sector, p.number) by {
      SlotEntry(sector, p.number);
    }
    EntryBytes(sector, p.number);
    hide EntryAt;
  }

  lemma SlotEntry(sector: Sector, number: nat)
    requires 1 <= number <= 4
    ensures Slots(sector)[number - 1] == EntryAt(sector, number)
  {
  }

  lemma EntryBytes(sector: Sector, number: nat)
    requires 1 <= number <= 4
    ensures var entry, at := EntryAt(sector, number), 430 + 16 * number;
            && entry.status == sector[at] && entry.typeCode == sector[at + 4]
            && entry.start == Le32At(sector, at + 8) && entry.sectors == Le32At(sector, at + 12)
  {
    var at := 430 + 16 * number;
    var slot := sector[at..at + ENTRY_BYTES];
    assert SlotOffset(number) == at;
    SliceOfSlice(sector, at, 8);
    SliceOfSlice(sector, at, 12);
    Le32OfSlice(sector, at + 8);
    Le32OfSlice(sector, at + 12);
  }

  lemma SliceOfSlice(sector: Sector, at: nat, i: nat)
    requires i + 4 <= ENTRY_BYTES && at + ENTRY_BYTES <= SECTOR_BYTES
    ensures sector[at..at + ENTRY_BYTES][i..i + 4] == sector[at + i..at + i + 4]
  {
    var inner, outer := sector[at..at + ENTRY_BYTES][i..i + 4], sector[at + i..at + i + 4];
    forall k | 0 <= k < 4 ensures inner[k] == outer[k] {
      assert inner[k] == sector[at..at + ENTRY_BYTES][i + k] == sector[at + i + k];
    }
  }

  lemma Le32OfSlice(sector: Sector, i: nat)
    requires i + 4 <= SECTOR_BYTES
    ensures FromLe32(sector[i..i + 4]) == Le32At(sector, i)
  {
  }

  /** The header signature spells what the standard says. */
  lemma SignatureSpells()
    ensures |GPT_SIGNATURE| == 8
    ensures forall i :: 0 <= i < 8 ==> GPT_SIGNATURE[i] == "EFI PART"[i] as int
  {
  }

  /** What each refusal says about the bytes, and that the earlier checks come first. */
  lemma RefusalMeans(sector: Sector, lba1: Option<seq<Byte>>, totalSectors: U64)
    ensures var r, slots := Parse(sector, lba1, totalSectors), Slots(sector);
            && (r == Err(InvalidSignature) <==> !HasSignature(sector))
            && (r == Err(GptDetected) ==> GptHeader(lba1) || exists k :: 0 <= k < 4 && slots[k].typeCode == 0xEE)
            && (HasSignature(sector) && GptHeader(lba1) ==> r == Err(GptDetected))
            && (r == Err(ExtendedPartition) ==> exists k :: 0 <= k < 4 && slots[k].typeCode in {0x05, 0x0F, 0x85})
            && (r == Err(StartsAtZero) ==> exists k :: 0 <= k < 4 && !Blank(slots[k]) && slots[k].start == 0)
            && (r == Err(PartitionOutOfBounds) ==>
                  exists k :: && 0 <= k < 4 && !Blank(slots[k])
                              && (slots[k].sectors == 0 || slots[k].start + slots[k].sectors > totalSectors))
            && (r == Err(OverlappingPartitions) ==>
                  && (forall k :: 0 <= k < 4 && !Blank(slots[k]) ==> Supported(slots[k], totalSectors))
                  && exists k, l :: && 0 <= k < l < 4 && !Blank(slots[k]) && !Blank(slots[l])
                                    && !Apart(slots[k], slots[l]))
  {
    ParseAcceptsExactly(sector, lba1, totalSectors);
    FirstFaultIsSome(Slots(sector), totalSectors, 4);
    hide Slots, HasSignature, GptHeader, Apart;
    hide Collected, PairwiseDisjoint;
  }

  /** The first fault is the fault of a non-blank slot behind faultless ones. */
  lemma {:induction false} FirstFaultIsSome(slots: Table, totalSectors: nat, n: nat)
    requires n <= 4
    ensures FirstFault(slots, totalSectors, n).Some? ==>
              exists k :: && 0 <= k < n && !Blank(slots[k])
                          && Fault(slots[k], totalSectors) == FirstFault(slots, totalSectors, n)
                          && forall j :: 0 <= j < k && !Blank(slots[j]) ==> Fault(slots[j], totalSectors).None?
  {
    hide Fault;
    if n > 0 {
      FirstFaultIsSome(slots, totalSectors, n - 1);
    }
  }

  lemma SlotsAcceptExactly(slots: Table, totalSectors: U64)
    ensures ParseSlots(slots, totalSectors).Ok? <==> AcceptedTable(slots, totalSectors)
  {
    if FirstFault(slots, totalSectors, 4).None? {
      CollectedInBounds(slots, totalSectors, 4);
      CollectedApart(slots);
    } else {
      assert !(forall k :: 0 <= k < 4 && !Blank(slots[k]) ==> Fault(slots[k], totalSectors).None?);
    }
  }

  ghost predicate SlotsApart(slots: Table) {
    forall k, l :: 0 <= k < l < 4 && !Blank(slots[k]) && !Blank(slots[l]) ==> Apart(slots[k], slots[l])
  }

  lemma CollectedApart(slots: Table)
    requires forall k :: 0 <= k < 4 && !Blank(slots[k]) ==> slots[k].start > 0 && slots[k].sectors > 0
    requires Ascending(Collected(slots, 4))
    ensures PairwiseDisjoint(Collected(slots, 4)) <==> SlotsApart(slots)
  {
    hide Collected;
    if SlotsApart(slots) {
      ApartThenDisjoint(slots);
    }
    if PairwiseDisjoint(Collected(slots, 4)) {
      forall k, l | 0 <= k < l < 4 && !Blank(slots[k]) && !Blank(slots[l]) ensures Apart(slots[k], slots[l]) {
        DisjointThenApart(slots, k, l);
      }
    }
  }

  lemma ApartThenDisjoint(slots: Table)
    requires SlotsApart(slots) && Ascending(Collected(slots, 4))
    ensures PairwiseDisjoint(Collected(slots, 4))
  {
    hide Collected;
    var ps := Collected(slots, 4);
    forall i, j | 0 <= i < j < |ps| ensures Disjoint(ps[i], ps[j]) {
      CollectedMembers(slots, 4, ps[i]);
      CollectedMembers(slots, 4, ps[j]);
      assert Apart(slots[ps[i].number - 1], slots[ps[j].number - 1]);
    }
  }

  lemma DisjointThenApart(slots: Table, k: nat, l: nat)
    requires PairwiseDisjoint(Collected(slots, 4)) && Ascending(Collected(slots, 4))
    requires k < l < 4 && !Blank(slots[k]) && !Blank(slots[l])
    requires slots[k].start > 0 && slots[l].start > 0
    ensures Apart(slots[k], slots[l])
  {
    hide Collected;
    var ps := Collected(slots, 4);
    var p, q := ToPartition(k + 1, slots[k]), ToPartition(l + 1, slots[l]);
    CollectedMembers(slots, 4, p);
    CollectedMembers(slots, 4, q);
    var i :| 0 <= i < |ps| && ps[i] == p;
    var j :| 0 <= j < |ps| && ps[j] == q;
    assert i < j;
    assert Disjoint(ps[i], ps[j]);
  }

  lemma {:induction false} NoOverflow(slots: Table, totalSectors: U64, n: nat)
    requires n <= 4
    ensures FirstFault(slots, totalSectors, n) != Some(GeometryOverflow)
  {
    if n > 0 {
      NoOverflow(slots, totalSectors, n - 1);
    }
  }

  lemma ParsedIsValid(sector: Sector, lba1: Option<seq<Byte>>, totalSectors: nat)
    requires Parse(sector, lba1, totalSectors).Ok?
    ensures Valid(Parse(sector, lba1, totalSectors).value, totalSectors)
    ensures |Parse(sector, lba1, totalSectors).value| <= 4
  {
    var slots := Slots(sector);
    CollectedInBounds(slots, totalSectors, 4);
    forall p | p in Collected(slots, 4) ensures p.startLba <= MAX_U32 {
      CollectedMembers(slots, 4, p);
    }
  }

  /** The device size enters acceptance only as a bound on every end. */
  lemma BoundOnlyLimitsEnds(sector: Sector, lba1: Option<seq<Byte>>, total: nat, other: nat)
    requires Parse(sector, lba1, total).Ok?
    ensures var ps := Parse(sector, lba1, total).value;
            if forall p :: p in ps ==> p.endLba < other
            then Parse(sector, lba1, other) == Ok(ps)
            else Parse(sector, lba1, other) == Err(PartitionOutOfBounds)
  {
    SlotBoundOnlyLimitsEnds(Slots(sector), total, other);
  }

  lemma SlotBoundOnlyLimitsEnds(slots: Table, total: nat, other: nat)
    requires ParseSlots(slots, total).Ok?
    ensures var ps := Collected(slots, 4);
            if forall p :: p in ps ==> p.endLba < other
            then ParseSlots(slots, other) == Ok(ps)
            else ParseSlots(slots, other) == Err(PartitionOutOfBounds)
  {
    var ps := Collected(slots, 4);
    if p :| p in ps && p.endLba >= other {
      CollectedMembers(slots, 4, p);
      assert Fault(slots[p.number - 1], other).Some?;
      OnlyBoundFault(slots, total, other, 4);
    } else {
      forall k | 0 <= k < 4 && !Blank(slots[k]) ensures Fault(slots[k], other).None? {
        assert Fault(slots[k], total).None?;
        CollectedMembers(slots, 4, ToPartition(k + 1, slots[k]));
      }
    }
  }

  lemma {:induction false} OnlyBoundFault(slots: Table, total: nat, other: nat, n: nat)
    requires n <= 4 && FirstFault(slots, total, n).None?
    ensures FirstFault(slots, other, n) in {None, Some(PartitionOutOfBounds)}
  {
    if n > 0 {
      OnlyBoundFault(slots, total, other, n - 1);
    }
  }

  // ----- Lists identified by their members -----

  /** Ascending numbers make a list a function of its members. */
  lemma {:induction false} AscendingExtensional(a: seq<Partition>, b: seq<Partition>)
    requires Ascending(a) && Ascending(b)
    requires forall p :: p in a <==> p in b
    ensures a == b
  {
    assert b == [] || (b[0] in b && b[0] in a);
    if a != [] {
      var p := a[|a| - 1];
      assert p in a;
      var j :| 0 <= j < |b| && b[j] == p;
      var q := b[|b| - 1];
      assert q in b;
      var i :| 0 <= i < |a| && a[i] == q;
      assert p == q;
      var a', b' := a[..|a| - 1], b[..|b| - 1];
      forall x ensures x in a' <==> x in b' {
        assert x in a' <==> x in a && x != p;
        assert x in b' <==> x in b && x != p;
      }
      AscendingExtensional(a', b');
    }
  }

  lemma {:induction false} FindMember(ps: seq<Partition>, p: Partition)
    requires Ascending(ps) && p in ps
    ensures Find(ps, p.number) == Some(p)
  {
    var i :| 0 <= i < |ps| && ps[i] == p;
    assert i > 0 ==> ps[0].number < p.number;
    if i > 0 {
      assert ps[1..][i - 1] == p;
      FindMember(ps[1..], p);
    }
  }

  // ----- Writing a table and parsing it back -----

  function SlotBytes(p: Option<Partition>): (bytes: seq<Byte>)
    requires p.Some? ==> p.value.startLba <= MAX_U32 && p.value.sectors <= MAX_U32
    ensures |bytes| == ENTRY_BYTES
  {
    if p.None? then seq(ENTRY_BYTES, _ => 0)
    else
      [if p.value.bootable then 0x80 else 0, 0, 0, 0, p.value.typeCode, 0, 0, 0]
      + ToLe32(p.value.startLba) + ToLe32(p.value.sectors)
  }

  function TableByte(ps: seq<Partition>, i: nat): Byte
    requires forall p :: p in ps ==> p.startLba <= MAX_U32 && p.sectors <= MAX_U32
    requires i < SECTOR_BYTES
  {
    if i < TABLE_OFFSET then 0
    else if i == 510 then 0x55
    else if i == 511 then 0xAA
    else SlotBytes(Find(ps, (i - TABLE_OFFSET) / ENTRY_BYTES + 1))[(i - TABLE_OFFSET) % ENTRY_BYTES]
  }

  function EncodeTable(ps: seq<Partition>): (sector: Sector)
    requires forall p :: p in ps ==> p.startLba <= MAX_U32 && p.sectors <= MAX_U32
  {
    seq(SECTOR_BYTES, i requires 0 <= i < SECTOR_BYTES => TableByte(ps, i))
  }

  lemma SlotIndex(k: nat, j: nat)
    requires 1 <= k <= 4 && j < ENTRY_BYTES
    ensures var i := SlotOffset(k) + j;
            && TABLE_OFFSET <= i < 510
            && (i - TABLE_OFFSET) / ENTRY_BYTES + 1 == k && (i - TABLE_OFFSET) % ENTRY_BYTES == j
  {
  }

  lemma SlotPlace(ps: seq<Partition>, k: nat)
    requires forall p :: p in ps ==> p.startLba <= MAX_U32 && p.sectors <= MAX_U32
    requires 1 <= k <= 4
    ensures EncodeTable(ps)[SlotOffset(k)..SlotOffset(k) + ENTRY_BYTES] == SlotBytes(Find(ps, k))
  {
    hide SlotOffset, SlotBytes, Find;
    var slot := EncodeTable(ps)[SlotOffset(k)..SlotOffset(k) + ENTRY_BYTES];
    forall j | 0 <= j < ENTRY_BYTES ensures slot[j] == SlotBytes(Find(ps, k))[j] {
      var i := SlotOffset(k) + j;
      SlotIndex(k, j);
      assert slot[j] == TableByte(ps, i);
    }
  }

  function EntryFor(p: Option<Partition>): Entry
    requires p.Some? ==> p.value.startLba <= MAX_U32 && p.value.sectors <= MAX_U32
  {
    match p
    case None => Entry(0, 0, 0, 0)
    case Some(p) => Entry(if p.bootable then 0x80 else 0, p.typeCode, p.startLba, p.sectors)
  }

  lemma SlotBytesEntry(p: Option<Partition>)
    requires p.Some? ==> p.value.startLba <= MAX_U32 && p.value.sectors <= MAX_U32
    ensures DecodeEntry(SlotBytes(p)) == EntryFor(p)
  {
    var slot := SlotBytes(p);
    if p.Some? {
      assert slot[8..12] == ToLe32(p.value.startLba);
      assert slot[12..16] == ToLe32(p.value.sectors);
      Le32RoundTrip(p.value.startLba);
      Le32RoundTrip(p.value.sectors);
    } else {
      assert slot[8..12] == [0, 0, 0, 0] == slot[12..16];
    }
  }

  lemma EncodedSlots(ps: seq<Partition>)
    requires forall p :: p in ps ==> p.startLba <= MAX_U32 && p.sectors <= MAX_U32
    ensures forall k :: 0 <= k < 4 ==> Slots(EncodeTable(ps))[k] == EntryFor(Find(ps, k + 1))
    ensures HasSignature(EncodeTable(ps))
  {
    EncodedSignature(ps);
    hide EncodeTable, EntryAt, EntryFor, Find, HasSignature;
    EncodedEntry(ps, 1);
    EncodedEntry(ps, 2);
    EncodedEntry(ps, 3);
    EncodedEntry(ps, 4);
  }

  lemma EncodedEntry(ps: seq<Partition>, k: nat)
    requires forall p :: p in ps ==> p.startLba <= MAX_U32 && p.sectors <= MAX_U32
    requires 1 <= k <= 4
    ensures EntryAt(EncodeTable(ps), k) == EntryFor(Find(ps, k))
  {
    hide EncodeTable, SlotOffset, SlotBytes, DecodeEntry, EntryFor, Find;
    SlotPlace(ps, k);
    SlotBytesEntry(Find(ps, k));
  }

  lemma EncodedSignature(ps: seq<Partition>)
    requires forall p :: p in ps ==> p.startLba <= MAX_U32 && p.sectors <= MAX_U32
    ensures HasSignature(EncodeTable(ps))
  {
    assert EncodeTable(ps)[510] == TableByte(ps, 510);
    assert EncodeTable(ps)[511] == TableByte(ps, 511);
  }

  /** Parsing an encoded table of valid partitions gives back exactly those partitions. */
  lemma EncodeParseRoundTrip(ps: seq<Partition>, lba1: Option<seq<Byte>>, totalSectors: nat)
    requires Valid(ps, totalSectors)
    ensures Parse(EncodeTable(ps), lba1, totalSectors) == if GptHeader(lba1) then Err(GptDetected) else Ok(ps)
  {
    EncodedSlots(ps);
    hide GptHeader, Slots, EncodeTable, HasSignature, EntryFor, ParseSlots, Find, PairwiseDisjoint, Ascending;
    SlotsOfListParse(ps, Slots(EncodeTable(ps)), totalSectors);
  }

  lemma SlotsOfListParse(ps: seq<Partition>, slots: Table, totalSectors: nat)
    requires Valid(ps, totalSectors)
    requires forall k :: 0 <= k < 4 ==> slots[k] == EntryFor(Find(ps, k + 1))
    ensures ParseSlots(slots, totalSectors) == Ok(ps)
  {
    assert forall q :: q in ps ==> Writable(q);
    hide Collected, FirstFault, EntryFor, Find, Classify, PairwiseDisjoint;
    forall p ensures p in Collected(slots, 4) <==> p in ps {
      SlotsOfListMember(ps, slots, p);
    }
    SlotsOfListFaultless(ps, slots, totalSectors);
    CollectedInBounds(slots, totalSectors, 4);
    AscendingExtensional(Collected(slots, 4), ps);
  }

  /** A partition survives being written as an entry. */
  predicate Writable(p: Partition) {
    && 1 <= p.number <= 4 && 1 <= p.startLba <= MAX_U32 && 1 <= p.sectors <= MAX_U32
    && p.endLba == p.startLba + p.sectors - 1 && p.kind == Classify(p.typeCode)
  }

  lemma WrittenReadsBack(p: Partition)
    requires Writable(p)
    ensures !Blank(EntryFor(Some(p))) && EntryFor(Some(p)).start > 0
    ensures ToPartition(p.number, EntryFor(Some(p))) == p
  {
    hide Classify;
  }

  lemma SlotsOfListMember(ps: seq<Partition>, slots: Table, p: Partition)
    requires Ascending(ps) && forall q :: q in ps ==> Writable(q) && q.startLba <= MAX_U32 && q.sectors <= MAX_U32
    requires forall k :: 0 <= k < 4 ==> slots[k] == EntryFor(Find(ps, k + 1))
    ensures p in Collected(slots, 4) <==> p in ps
  {
    hide Collected, Find;
    CollectedMembers(slots, 4, p);
    if p in ps {
      FindMember(ps, p);
      hide Ascending;
      assert slots[p.number - 1] == EntryFor(Some(p));
      WrittenReadsBack(p);
    } else if 1 <= p.number <= 4 {
      hide Ascending;
      var found := Find(ps, p.number);
      assert slots[p.number - 1] == EntryFor(found);
      if found.Some? {
        WrittenReadsBack(found.value);
      }
    }
  }

  lemma SlotsOfListFaultless(ps: seq<Partition>, slots: Table, totalSectors: nat)
    requires Valid(ps, totalSectors)
    requires forall k :: 0 <= k < 4 ==> slots[k] == EntryFor(Find(ps, k + 1))
    ensures FirstFault(slots, totalSectors, 4).None?
  {
    hide PairwiseDisjoint, Ascending, Classify;
  }

  // ----- Rewriting one entry -----

  /** `sfdisk -N number` with an unchanged start: only the four length bytes of the slot move. */
  function SetSectors(sector: Sector, number: nat, sectors: U32): (r: Sector)
    requires 1 <= number <= 4
  {
    var offset := SlotOffset(number);
    sector[..offset + 12] + ToLe32(sectors) + sector[offset + 16..]
  }

  function SetSlot(slots: Table, number: nat, sectors: U32): Table
    requires 1 <= number <= 4
  {
    slots[number - 1 := slots[number - 1].(sectors := sectors)]
  }

  lemma RewrittenSlots(sector: Sector, number: nat, sectors: U32)
    requires 1 <= number <= 4
    ensures Slots(SetSectors(sector, number, sectors)) == SetSlot(Slots(sector), number, sectors)
    ensures HasSignature(SetSectors(sector, number, sectors)) == HasSignature(sector)
  {
    SignatureUnwritten(sector, number, sectors);
    hide SetSectors, EntryAt, HasSignature;
    forall k | 1 <= k <= 4
      ensures EntryAt(SetSectors(sector, number, sectors), k) == SetSlot(Slots(sector), number, sectors)[k - 1]
    {
      RewrittenEntry(sector, number, sectors, k);
    }
  }

  lemma SignatureUnwritten(sector: Sector, number: nat, sectors: U32)
    requires 1 <= number <= 4
    ensures HasSignature(SetSectors(sector, number, sectors)) == HasSignature(sector)
  {
  }

  lemma RewrittenEntry(sector: Sector, number: nat, sectors: U32, k: nat)
    requires 1 <= number <= 4 && 1 <= k <= 4
    ensures EntryAt(SetSectors(sector, number, sectors), k)
            == if k == number then EntryAt(sector, k).(sectors := sectors) else EntryAt(sector, k)
  {
    var old' := sector[SlotOffset(k)..SlotOffset(k) + ENTRY_BYTES];
    var new' := SetSectors(sector, number, sectors)[SlotOffset(k)..SlotOffset(k) + ENTRY_BYTES];
    if k == number {
      assert new' == old'[..12] + ToLe32(sectors);
      assert new'[8..12] == old'[8..12] && new'[12..16] == ToLe32(sectors);
      Le32RoundTrip(sectors);
    } else {
      assert new' == old';
    }
  }

  lemma {:induction false} RewrittenCollected(slots: Table, number: nat, sectors: U32, n: nat)
    requires 1 <= number <= 4 && n <= 4 && sectors > 0
    requires !Blank(slots[number - 1]) && slots[number - 1].start > 0
    ensures Collected(SetSlot(slots, number, sectors), n)
            == WithEnd(Collected(slots, n), number, slots[number - 1].start + sectors - 1)
  {
    if n > 0 {
      RewrittenCollected(slots, number, sectors, n - 1);
      var endLba := slots[number - 1].start + sectors - 1;
      var entry, entry' := slots[n - 1], SetSlot(slots, number, sectors)[n - 1];
      assert Blank(entry') == Blank(entry) && entry'.start == entry.start;
      if !Blank(entry) && entry.start != 0 {
        assert ToPartition(n, entry') == Moved(ToPartition(n, entry), number, endLba);
      }
    }
  }

  /**
   * Re-parsing after one length is rewritten: accepted exactly when the new range stays on the device
   * and off every other partition, and then that partition alone differs.
   */
  lemma RewriteParse(sector: Sector, lba1: Option<seq<Byte>>, totalSectors: U64, root: Partition, endLba: nat)
    requires Parse(sector, lba1, totalSectors).Ok? && root in Parse(sector, lba1, totalSectors).value
    requires root.startLba <= endLba && endLba - root.startLba + 1 <= MAX_U32
    ensures 1 <= root.number <= 4
    ensures var ps := Parse(sector, lba1, totalSectors).value;
            var changed := Parse(SetSectors(sector, root.number, endLba - root.startLba + 1), lba1, totalSectors);
            && (forall p :: p in ps && p.number == root.number ==> p == root)
            && (changed.Ok? <==> endLba < totalSectors && ClearOfOthers(ps, root, endLba))
            && (changed.Ok? ==> changed.value == WithEnd(ps, root.number, endLba))
  {
    hide Slots, HasSignature, SetSlot;
    CollectedMembers(Slots(sector), 4, root);
    RewrittenSlots(sector, root.number, endLba - root.startLba + 1);
    SlotRewriteParse(Slots(sector), totalSectors, root, endLba);
  }

  lemma SlotRewriteParse(slots: Table, totalSectors: U64, root: Partition, endLba: nat)
    requires ParseSlots(slots, totalSectors).Ok? && root in Collected(slots, 4)
    requires root.startLba <= endLba && endLba - root.startLba + 1 <= MAX_U32
    ensures 1 <= root.number <= 4
    ensures var ps := Collected(slots, 4);
            var changed := ParseSlots(SetSlot(slots, root.number, endLba - root.startLba + 1), totalSectors);
            && (forall p :: p in ps && p.number == root.number ==> p == root)
            && (changed.Ok? <==> endLba < totalSectors && ClearOfOthers(ps, root, endLba))
            && (changed.Ok? ==> changed.value == WithEnd(ps, root.number, endLba))
  {
    hide Collected, FirstFault, SetSlot, PairwiseDisjoint, WithEnd, Blank, Fault, ClearOfOthers;
    var ps := Collected(slots, 4);
    var size := endLba - root.startLba + 1;
    CollectedMembers(slots, 4, root);
    CollectedInBounds(slots, totalSectors, 4);
    forall p | p in ps && p.number == root.number ensures p == root {
      CollectedMembers(slots, 4, p);
    }
    RewrittenCollected(slots, root.number, size, 4);
    RewriteFault(slots, totalSectors, root, endLba);
    RewriteDisjoint(ps, root, endLba);
  }

  lemma RewriteFault(slots: Table, totalSectors: U64, root: Partition, endLba: nat)
    requires FirstFault(slots, totalSectors, 4).None? && root in Collected(slots, 4)
    requires root.startLba <= endLba && endLba - root.startLba + 1 <= MAX_U32
    requires 1 <= root.number <= 4
    ensures FirstFault(SetSlot(slots, root.number, endLba - root.startLba + 1), totalSectors, 4).None?
            <==> endLba < totalSectors
  {
    CollectedMembers(slots, 4, root);
    var slots' := SetSlot(slots, root.number, endLba - root.startLba + 1);
    assert Fault(slots[root.number - 1], totalSectors).None?;
    assert Fault(slots'[root.number - 1], totalSectors).None? <==> endLba < totalSectors;
  }

  /** Nothing but the root itself lies between its start and `endLba`. */
  ghost predicate ClearOfOthers(ps: seq<Partition>, root: Partition, endLba: nat) {
    forall p :: p in ps && p != root ==> p.endLba < root.startLba || endLba < p.startLba
  }

  lemma RewriteDisjoint(ps: seq<Partition>, root: Partition, endLba: nat)
    requires Ascending(ps) && PairwiseDisjoint(ps) && root in ps && root.startLba <= endLba
    requires forall p :: p in ps && p.number == root.number ==> p == root
    requires forall p :: p in ps ==> p.startLba <= p.endLba
    ensures PairwiseDisjoint(WithEnd(ps, root.number, endLba)) <==> ClearOfOthers(ps, root, endLba)
  {
    var changed := WithEnd(ps, root.number, endLba);
    var r :| 0 <= r < |ps| && ps[r] == root;
    forall i | 0 <= i < |ps| && i != r
      ensures changed[i] == ps[i] != root
      ensures Disjoint(ps[i], changed[r]) == Disjoint(changed[r], ps[i])
      ensures Disjoint(ps[i], changed[r]) <==> ps[i].endLba < root.startLba || endLba < ps[i].startLba
    {
      assert if i < r then ps[i].number < ps[r].number else ps[r].number < ps[i].number;
      assert ps[i] in ps;
    }
    DisjointButOne(ps, changed, r);
    if ClearOfOthers(ps, root, endLba) {
      forall i | 0 <= i < |ps| && i != r ensures Disjoint(changed[i], changed[r]) {
        assert ps[i] in ps;
      }
    }
  }

  lemma DisjointButOne(ps: seq<Partition>, changed: seq<Partition>, r: nat)
    requires |changed| == |ps| && r < |ps| && PairwiseDisjoint(ps)
    requires forall i :: 0 <= i < |ps| && i != r ==> changed[i] == ps[i]
    ensures PairwiseDisjoint(changed) <==>
            forall i :: 0 <= i < |ps| && i != r ==> Disjoint(changed[i], changed[r])
  {
    if PairwiseDisjoint(changed) {
      forall i | 0 <= i < |ps| && i != r ensures Disjoint(changed[i], changed[r]) {
        assert if i < r then Disjoint(changed[i], changed[r]) else Disjoint(changed[r], changed[i]);
      }
    }
    forall i, j | 0 <= i < j < |ps| && i != r && j != r ensures Disjoint(changed[i], changed[j]) {
      assert Disjoint(ps[i], ps[j]);
    }
  }
}
